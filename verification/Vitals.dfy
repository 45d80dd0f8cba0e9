/** The hero over whole runs: hit points and magic stay within their maxima, experience never
    falls, and what he has grown into depends on nothing but the experience. */
module Vitals {
  import opened Wrappers
  import opened Scenarios
  import opened GameStates
  import opened Leveling
  import opened Combat
  import opened Spells
  import opened Inventory
  import opened CombatInvariant
  import opened EngineRuns

  /** No spell restores MP; scenario validation does not demand it. */
  predicate SpellsSound(spec: Spec) {
    forall id :: id in spec.spells ==> 0 <= spec.spells[id].mp
  }

  predicate Vital(h: Character) { WithinMaxima(h) && 0 <= h.mp }

  /** What an action other than the level check may do to the hero. */
  predicate Lives(h: Character, h': Character) {
    Growth(h') == Growth(h) && h.xp <= h'.xp && (Vital(h) ==> Vital(h'))
  }

  lemma StruckLives(spec: Spec, w: World, i: nat, damage: int)
    requires CombatOK(w.combat) && i < |w.combat.enemies|
    ensures Lives(w.hero, Struck(spec, w, i, damage).hero)
    ensures Struck(spec, w, i, damage).hero.mp == w.hero.mp
  {
    hide Roster, Pointed, Advanced;
  }

  lemma CastLives(spec: Spec, w: World, spell: string, target: string, power: Option<int>)
    requires WorldOK(w) && Callable(w) && SpellsSound(spec)
    ensures Lives(w.hero, Cast(spec, w, spell, target, power).0.hero)
  {
    hide Roster, Pointed, Advanced, Struck;
    if CastBarred(spec, w, spell, power).None? {
      var t := Aim(w, target);
      if w.combat.active && DamageBarred(w, t).None? {
        StruckLives(spec, w, FindEnemy(w.combat.enemies, t), AtLeastOne(power.value));
      }
    }
  }

  /** Between level checks experience only grows, and nothing leaves its bounds. */
  lemma AppliedLives(spec: Spec, w: World, a: Action)
    requires WorldOK(w) && Callable(w) && SpellsSound(spec) && !a.LevelCheck?
    ensures Lives(w.hero, Applied(spec, w, a).hero)
  {
    hide Roster, Pointed, Advanced, Struck, Cast, SpellsSound, Mitigated, CarryWeight, Instances, Opening,
         TemplatesKnown;
    match a
    case Hit(target, roll) =>
      var i := FindEnemy(w.combat.enemies, target);
      if w.combat.active && i >= 0 {
        StruckLives(spec, w, i, AtLeastOne(roll));
      }
    case Chant(spell, target, power) => CastLives(spec, w, spell, target, power);
    case _ =>
  }

  // ---------- Growth ----------

  /** A level check now would make of `h` what it would make of `h0` with the same experience. */
  ghost predicate GrownFrom(h0: Character, h: Character)
    requires -1 <= h0.level && -1 <= h.level
  {
    h0.xp <= h.xp && Growth(Leveled(h)) == Growth(Leveled(h0.(xp := h.xp)))
  }

  lemma LivingKeepsGrowth(h0: Character, h: Character, h': Character)
    requires -1 <= h0.level && -1 <= h.level && GrownFrom(h0, h) && Lives(h, h')
    ensures -1 <= h'.level && GrownFrom(h0, h')
  {
    hide Leveled, Vital;
    GrowthOnly(h', h.(xp := h'.xp));
    EarlyCheckIsHarmless(h, h'.xp);
    EarlyCheckIsHarmless(h0.(xp := h.xp), h'.xp);
    GrowthOnly(Leveled(h).(xp := h'.xp), Leveled(h0.(xp := h.xp)).(xp := h'.xp));
    assert h0.(xp := h.xp).(xp := h'.xp) == h0.(xp := h'.xp);
  }

  lemma CheckKeepsGrowth(h0: Character, h: Character)
    requires -1 <= h0.level && -1 <= h.level && GrownFrom(h0, h)
    ensures GrownFrom(h0, Leveled(h))
    ensures Vital(h) ==> Vital(Leveled(h))
  {
    hide Leveled;
    LeveledKeepsXP(h);
    EarlyCheckIsHarmless(h, h.xp);
    assert h.(xp := h.xp) == h;
    assert Leveled(h).(xp := h.xp) == Leveled(h);
    LeveledWithinMaxima(h);
  }

  /** Over any run of engine calls, level checks at any moments included: HP and MP stay within
      bounds, experience never falls, and a level check at the end gives exactly the level, stats
      and maxima of a single check of the original hero with the experience reached. */
  lemma {:induction false} GrowthIsEarned(spec: Spec, w: World, actions: seq<Action>, h0: Character)
    requires WorldOK(w) && TemplatesAlive(spec) && SpellsSound(spec) && -1 <= w.hero.level
    requires -1 <= h0.level && GrownFrom(h0, w.hero)
    ensures var end := Ran(spec, w, actions).hero;
            && w.hero.xp <= end.xp && GrownFrom(h0, end)
            && (Vital(w.hero) ==> Vital(end))
    decreases |actions|
  {
    hide WorldOK, TemplatesAlive, SpellsSound, Applied, GrownFrom, Vital, Growth, Leveled;
    if actions != [] {
      Ready(w);
      AppliedOK(spec, w, actions[0]);
      var w' := Applied(spec, w, actions[0]);
      OneActionGrows(spec, w, actions[0], h0);
      GrowthIsEarned(spec, w', actions[1..], h0);
    }
  }

  lemma OneActionGrows(spec: Spec, w: World, a: Action, h0: Character)
    requires WorldOK(w) && Callable(w) && SpellsSound(spec)
    requires -1 <= h0.level && GrownFrom(h0, w.hero)
    ensures var h' := Applied(spec, w, a).hero;
            && -1 <= h'.level && w.hero.xp <= h'.xp && GrownFrom(h0, h') && (Vital(w.hero) ==> Vital(h'))
  {
    if a.LevelCheck? {
      hide GrownFrom, Vital, WorldOK;
      LeveledKeepsXP(w.hero);
      CheckKeepsGrowth(h0, w.hero);
    } else {
      hide Applied, GrownFrom, Vital, WorldOK, Leveled;
      AppliedLives(spec, w, a);
      LivingKeepsGrowth(h0, w.hero, Applied(spec, w, a).hero);
    }
  }
}
