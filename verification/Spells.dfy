/** Spell casting. */
module Spells {
  import opened Wrappers
  import opened Scenarios
  import opened GameStates
  import opened Combat

  datatype CastResult = CastResult(spellName: string, mpCost: int, effect: string, power: int, target: string, heroHP: int)

  /** The checks before any effect: alive, known spell, right class, enough MP, valid dice. */
  function CastBarred(spec: Spec, w: World, spellID: string, roll: Option<int>): Option<EngineError> {
    if w.hero.hp <= 0 then Some(HeroDead)
    else if spellID !in spec.spells then Some(UnknownSpell(spellID))
    else if w.hero.class_ !in spec.spells[spellID].classes then Some(NotCaster)
    else if w.hero.mp < spec.spells[spellID].mp then Some(InsufficientMP)
    else if roll.None? then Some(BadSpell(spellID))
    else None
  }

  function Aim(w: World, target: string): string {
    if target == "" then FirstAlive(w.combat.enemies) else target
  }

  function DamageBarred(w: World, target: string): Option<EngineError> {
    if !w.combat.active then Some(NotInCombat)
    else if !HeroTurn(w.combat) then Some(NotHeroTurn)
    else if !Living(w.combat.enemies, target) then Some(InvalidTarget(target))
    else None
  }

  function Healed(h: Character, power: int): Character {
    h.(hp := if h.hp + power > h.maxHP then h.maxHP else h.hp + power)
  }

  /** The heal applied, and the hero's turn spent if there is a fight. */
  function HealedWorld(w: World, power: int): World
    requires WellIndexed(w.combat)
  {
    w.(hero := Healed(w.hero, power),
       combat := if w.combat.active then Advanced(w.combat.(heroDefending := false)) else w.combat)
  }

  function PayMP(w: World, mp: int): World {
    w.(hero := w.hero.(mp := w.hero.mp - mp))
  }

  /** MP is only paid once the effect has taken place. `roll` is None for unparsable dice. */
  function Cast(spec: Spec, w: World, spellID: string, target: string, roll: Option<int>): (World, Result<CastResult, EngineError>)
    requires WellIndexed(w.combat)
  {
    if CastBarred(spec, w, spellID, roll).Some? then (w, Err(CastBarred(spec, w, spellID, roll).value))
    else
      var spell := spec.spells[spellID];
      var power := AtLeastOne(roll.value);
      if spell.effect == "damage" then
        var t := Aim(w, target);
        if !w.combat.active then (w, Err(NotInCombat))
        else if DamageBarred(w, t).Some? then (w, Err(DamageBarred(w, t).value))
        else
          (PayMP(Struck(spec, w, FindEnemy(w.combat.enemies, t), power), spell.mp),
           Ok(CastResult(spell.name, spell.mp, "damage", power, t, 0)))
      else if spell.effect == "heal" then
        if w.combat.active && !HeroTurn(w.combat) then (w, Err(NotHeroTurn))
        else
          (PayMP(HealedWorld(w, power), spell.mp),
           Ok(CastResult(spell.name, spell.mp, "heal", power, "", Healed(w.hero, power).hp)))
      else (w, Err(BadSpell(spellID)))
  }

  method ClassCanCast(class_: string, allowed: seq<string>) returns (ok: bool)
    ensures ok <==> class_ in allowed
  {
    for i := 0 to |allowed|
      invariant class_ !in allowed[..i]
    {
      if allowed[i] == class_ {
        return true;
      }
    }
    return false;
  }

  method CastDamage(spec: Spec, state: GameState, spell: SpellTemplate, power: int, target: string)
      returns (r: Result<CastResult, EngineError>)
    requires WellIndexed(state.combat)
    modifies state`hero, state`combat, state`roomState
    ensures var w, t := old(state.Snap()), Aim(old(state.Snap()), target);
      if !w.combat.active then state.Snap() == w && r == Err(NotInCombat)
      else if DamageBarred(w, t).Some? then state.Snap() == w && r == Err(DamageBarred(w, t).value)
      else && state.Snap() == Struck(spec, w, FindEnemy(w.combat.enemies, t), power)
           && r == Ok(CastResult(spell.name, spell.mp, "damage", power, t, 0))
  {
    if !state.combat.active {
      return Err(NotInCombat);
    }
    if |state.combat.turnOrder| == 0 || state.combat.turnOrder[state.combat.currentTurn] != HERO {
      return Err(NotHeroTurn);
    }
    var t := target;
    if t == "" {
      t := FirstAliveEnemy(state);
    }
    var i := FindEnemy(state.combat.enemies, t);
    if i < 0 || state.combat.enemies[i].hp <= 0 {
      return Err(InvalidTarget(t));
    }
    var e, over := Strike(spec, state, i, power);
    return Ok(CastResult(spell.name, spell.mp, "damage", power, t, 0));
  }

  method CastHeal(state: GameState, spell: SpellTemplate, power: int) returns (r: Result<CastResult, EngineError>)
    requires WellIndexed(state.combat)
    modifies state`hero, state`combat
    ensures var w := old(state.Snap());
      if w.combat.active && !HeroTurn(w.combat) then state.Snap() == w && r == Err(NotHeroTurn)
      else && state.Snap() == HealedWorld(w, power)
           && r == Ok(CastResult(spell.name, spell.mp, "heal", power, "", Healed(w.hero, power).hp))
  {
    if state.combat.active {
      if |state.combat.turnOrder| == 0 || state.combat.turnOrder[state.combat.currentTurn] != HERO {
        return Err(NotHeroTurn);
      }
    }
    state.hero := state.hero.(hp := state.hero.hp + power);
    if state.hero.hp > state.hero.maxHP {
      state.hero := state.hero.(hp := state.hero.maxHP);
    }
    if state.combat.active {
      state.combat := state.combat.(heroDefending := false);
      AdvanceTurn(state);
    }
    return Ok(CastResult(spell.name, spell.mp, "heal", power, "", state.hero.hp));
  }

  method CastSpell(spec: Spec, state: GameState, spellID: string, target: string, roll: Option<int>)
      returns (r: Result<CastResult, EngineError>)
    requires WellIndexed(state.combat)
    modifies state`hero, state`combat, state`roomState
    ensures (state.Snap(), r) == Cast(spec, old(state.Snap()), spellID, target, roll)
  {
    if state.hero.hp <= 0 {
      return Err(HeroDead);
    }
    if spellID !in spec.spells {
      return Err(UnknownSpell(spellID));
    }
    var spell := spec.spells[spellID];
    var ok := ClassCanCast(state.hero.class_, spell.classes);
    if !ok {
      return Err(NotCaster);
    }
    if state.hero.mp < spell.mp {
      return Err(InsufficientMP);
    }
    if roll.None? {
      return Err(BadSpell(spellID));
    }
    var power := AtLeastOne(roll.value);
    if spell.effect == "damage" {
      r := CastDamage(spec, state, spell, power, target);
    } else if spell.effect == "heal" {
      r := CastHeal(state, spell, power);
    } else {
      return Err(BadSpell(spellID));
    }
    if r.Err? {
      return;
    }
    state.hero := state.hero.(mp := state.hero.mp - spell.mp);
  }
}
