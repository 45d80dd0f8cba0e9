/** What the enemies' turns cost the hero: every hit takes the damage it reports off his hit points,
    and a raised guard halves each hit until it is his turn again. */
module EnemyHits {
  import opened Wrappers
  import opened Scenarios
  import opened GameStates
  import opened Combat
  import opened CombatInvariant
  import opened EnemyTurns

  /** What the armour the hero wears takes off a hit. */
  function Armour(spec: Spec, h: Character): nat {
    var id := h.equipped.armor;
    if id != "" && id in spec.items && spec.items[id].defense > 0 then spec.items[id].defense else 0
  }

  /** `damage` is what is left of a roll, which counts as one at least: half of it behind a raised
      guard, less the armour, but never below one. */
  predicate LeftOf(damage: int, roll: int, guarded: bool, armour: nat) {
    var raw := if roll < 1 then 1 else roll;
    var left := (if guarded then raw / 2 else raw) - armour;
    damage == if left < 1 then 1 else left
  }

  lemma MitigatedIsLeft(spec: Spec, h: Character, roll: int, guarded: bool)
    ensures LeftOf(Mitigated(spec, h, roll, guarded), roll, guarded, Armour(spec, h))
  {
  }

  /** The guard never makes a hit worse, and halves whatever it lets through beyond one point. */
  lemma GuardHelps(damage: int, guardedDamage: int, roll: int, armour: nat)
    requires LeftOf(damage, roll, false, armour) && LeftOf(guardedDamage, roll, true, armour)
    ensures guardedDamage <= damage
    ensures guardedDamage > 1 ==> 2 * (guardedDamage + armour) <= roll && guardedDamage < damage
  {
  }

  /** The enemy whose turn it is. */
  function Acting(w: World): Option<Enemy>
    requires WellIndexed(w.combat)
  {
    if !w.combat.active || w.combat.turnOrder == [] then None
    else
      var i := FindEnemy(w.combat.enemies, w.combat.turnOrder[w.combat.currentTurn]);
      if i < 0 then None else Some(w.combat.enemies[i])
  }

  /** One enemy's turn: a cautious enemy down to three tenths runs and hurts nobody; any other one
      takes the damage it reports off the hero's hit points, and nothing else of him. */
  lemma EnemyTurnCosts(spec: Spec, w: World, roll: int)
    requires WorldOK(w) && !Settled(w)
    ensures WellIndexed(w.combat) && w.combat.turnOrder != [] && Acting(w).Some?
    ensures var (w', r) := EnemyActed(spec, w, roll);
            var e := Acting(w).value;
            && e.hp > 0 && r.Ok? && r.value.enemyID == e.id && !r.value.action.Skip?
            && (r.value.action.Run? <==> e.ai == "cautious" && 10 * e.hp <= 3 * e.maxHP)
            && (r.value.action.Run? ==> w'.hero == w.hero)
            && (r.value.action.Hit? ==>
                  && w'.hero == w.hero.(hp := w.hero.hp - r.value.action.damage)
                  && (r.value.action.heroDead <==> w'.hero.hp <= 0)
                  && LeftOf(r.value.action.damage, roll, w.combat.heroDefending, Armour(spec, w.hero)))
  {
    hide Advanced, Roster, Mitigated, LeftOf;
    PointedRange(w.combat);
    MitigatedIsLeft(spec, w.hero, roll, w.combat.heroDefending);
  }

  /** The guard stays up while it is an enemy's turn. */
  lemma GuardStays(spec: Spec, w: World, roll: int)
    requires WorldOK(w) && !Settled(w) && TurnReady(w)
    ensures var w' := EnemyActed(spec, w, roll).0;
            !Settled(w') ==> w'.combat.heroDefending == w.combat.heroDefending
  {
    hide Roster, Mitigated, Steps, Living;
    PointedRange(w.combat);
  }

  // ---------- The enemies' turns together ----------

  /** What each turn of the phase reports, in order. */
  ghost function Reports(spec: Spec, w: World, dice: nat -> int, i: nat): seq<EnemyTurnResult>
    requires WorldOK(w)
    decreases Remaining(w)
  {
    if Settled(w) then []
    else
      EnemyActedCloser(spec, w, dice(i));
      EnemyActedShape(spec, w, dice(i));
      var (w', r) := EnemyActed(spec, w, dice(i));
      [r.value] + Reports(spec, w', dice, i + 1)
  }

  /** The damage reported. */
  function Damage(turns: seq<EnemyTurnResult>): int {
    if turns == [] then 0
    else (if turns[0].action.Hit? then turns[0].action.damage else 0) + Damage(turns[1..])
  }

  function HitCount(turns: seq<EnemyTurnResult>): nat {
    if turns == [] then 0 else (if turns[0].action.Hit? then 1 else 0) + HitCount(turns[1..])
  }

  /** Every reported hit is what is left of its roll. */
  ghost predicate HitsLeft(turns: seq<EnemyTurnResult>, dice: nat -> int, i: nat, guarded: bool, armour: nat) {
    forall k :: 0 <= k < |turns| && turns[k].action.Hit? ==> LeftOf(turns[k].action.damage, dice(i + k), guarded, armour)
  }

  lemma ReportsUnfold(spec: Spec, w: World, dice: nat -> int, i: nat)
    requires WorldOK(w)
    ensures Settled(w) ==> Reports(spec, w, dice, i) == []
    ensures !Settled(w) ==>
      && TurnReady(w)
      && var (w', r) := EnemyActed(spec, w, dice(i));
      && r.Ok? && WorldOK(w') && Remaining(w') < Remaining(w)
      && Reports(spec, w, dice, i) == [r.value] + Reports(spec, w', dice, i + 1)
  {
    ReadyToAct(w);
    if !Settled(w) {
      EnemyActedCloser(spec, w, dice(i));
      EnemyActedShape(spec, w, dice(i));
    }
  }

  lemma HitsLeftNext(first: EnemyTurnResult, rest: seq<EnemyTurnResult>, dice: nat -> int, i: nat, guarded: bool, armour: nat)
    requires first.action.Hit? ==> LeftOf(first.action.damage, dice(i), guarded, armour)
    requires HitsLeft(rest, dice, i + 1, guarded, armour)
    ensures HitsLeft([first] + rest, dice, i, guarded, armour)
  {
    hide LeftOf;
    var all := [first] + rest;
    forall k | 0 <= k < |all| && all[k].action.Hit? ensures LeftOf(all[k].action.damage, dice(i + k), guarded, armour) {
      if k > 0 {
        assert all[k] == rest[k - 1] && dice(i + k) == dice((i + 1) + (k - 1));
      }
    }
  }

  /** The whole phase: exactly the enemies that acted report, the hero loses exactly the damage
      reported, at least one point for everybody who did not run, and each hit is what his armour
      and the guard he raised beforehand leave of its roll. */
  lemma {:induction false} PhaseCosts(spec: Spec, w: World, dice: nat -> int, i: nat)
    requires WorldOK(w)
    ensures var p, turns := EnemyPhase(spec, w, dice, i), Reports(spec, w, dice, i);
            && |turns| == |p.acted| && (forall k :: 0 <= k < |turns| ==> turns[k].enemyID == p.acted[k])
            && p.world.hero == w.hero.(hp := w.hero.hp - Damage(turns))
            && HitCount(turns) <= Damage(turns)
            && HitsLeft(turns, dice, i, w.combat.heroDefending, Armour(spec, w.hero))
    decreases Remaining(w)
  {
    hide WorldOK, EnemyActed, EnemyPhase, Reports, LeftOf, HitsLeft, Remaining, Armour, Acting;
    EnemyPhaseUnfolds(spec, w, dice, i);
    ReportsUnfold(spec, w, dice, i);
    if Settled(w) {
      NoHits(dice, i, w.combat.heroDefending, Armour(spec, w.hero));
    } else {
      var (w', r) := EnemyActed(spec, w, dice(i));
      EnemyTurnCosts(spec, w, dice(i));
      GuardStays(spec, w, dice(i));
      PhaseCosts(spec, w', dice, i + 1);
      var rest := Reports(spec, w', dice, i + 1);
      assert ([r.value] + rest)[1..] == rest;
      SameArmour(spec, w.hero, w'.hero);
      if Settled(w') {
        ReportsUnfold(spec, w', dice, i + 1);
        NoHits(dice, i + 1, w.combat.heroDefending, Armour(spec, w.hero));
      }
      if r.value.action.Hit? {
        LeftIsPositive(r.value.action.damage, dice(i), w.combat.heroDefending, Armour(spec, w.hero));
      }
      HitsLeftNext(r.value, rest, dice, i, w.combat.heroDefending, Armour(spec, w.hero));
    }
  }

  lemma LeftIsPositive(damage: int, roll: int, guarded: bool, armour: nat)
    requires LeftOf(damage, roll, guarded, armour)
    ensures damage >= 1
  {
  }

  lemma NoHits(dice: nat -> int, i: nat, guarded: bool, armour: nat)
    ensures HitsLeft([], dice, i, guarded, armour)
  {
  }

  lemma SameArmour(spec: Spec, h: Character, h': Character)
    requires h'.equipped == h.equipped
    ensures Armour(spec, h') == Armour(spec, h)
  {
  }

  // ---------- What the hero's choice makes of it ----------

  /** Whoever defends takes the answer behind his guard; whoever fails to escape takes it in full. */
  lemma DefenceHalves(spec: Spec, w: World, roll: int, dice: nat -> int)
    requires WorldOK(w) && w.combat.active && HeroTurn(w.combat) && w.hero.hp > 0
    ensures WellIndexed(w.combat)
    ensures var (w', err) := Defended(w);
            && err.None? && WorldOK(w') && w'.hero == w.hero && w'.combat.active
            && HitsLeft(Reports(spec, w', dice, 0), dice, 0, true, Armour(spec, w.hero))
    ensures roll > w.hero.stats.dex ==>
            var (w', r) := Fled(w, roll);
            && r == Ok(false) && WorldOK(w') && w'.hero == w.hero && w'.combat.active
            && HitsLeft(Reports(spec, w', dice, 0), dice, 0, false, Armour(spec, w.hero))
  {
    hide Roster, Pointed, Steps, Reports, HitsLeft, Armour, Remaining;
    PointedRange(w.combat);
    SpentTurnOK(w, true);
    SpentTurnOK(w, false);
    AnswerTaken(spec, Defended(w).0, dice, true, Armour(spec, w.hero));
    if roll > w.hero.stats.dex {
      AnswerTaken(spec, Fled(w, roll).0, dice, false, Armour(spec, w.hero));
    }
  }

  lemma AnswerTaken(spec: Spec, w: World, dice: nat -> int, guarded: bool, armour: nat)
    requires WorldOK(w) && Armour(spec, w.hero) == armour && (!Settled(w) ==> w.combat.heroDefending == guarded)
    ensures HitsLeft(Reports(spec, w, dice, 0), dice, 0, guarded, armour)
  {
    hide WorldOK, HitsLeft, Armour;
    PhaseCosts(spec, w, dice, 0);
    if Settled(w) {
      ReportsUnfold(spec, w, dice, 0);
      NoHits(dice, 0, guarded, armour);
    }
  }

  /** How many of the outcomes 1 to `rolls` of the die escape. */
  function EscapeCount(w: World, rolls: nat): nat
    requires WellIndexed(w.combat)
  {
    if rolls == 0 then 0 else EscapeCount(w, rolls - 1) + if Fled(w, rolls).1 == Ok(true) then 1 else 0
  }

  /** The chance to escape is Dexterity in twenty; an escape touches neither hero nor rooms. */
  lemma {:induction false} ChanceToEscape(w: World, rolls: nat)
    requires WellIndexed(w.combat) && w.combat.active && HeroTurn(w.combat) && w.hero.hp > 0
    ensures var dex := w.hero.stats.dex;
            EscapeCount(w, rolls) == if dex < 0 then 0 else if dex < rolls then dex else rolls
    ensures forall roll :: Fled(w, roll).1 == Ok(true) ==> Fled(w, roll).0 == w.(combat := NO_COMBAT)
    decreases rolls
  {
    hide Advanced;
    if rolls > 0 {
      ChanceToEscape(w, rolls - 1);
    }
  }
}
