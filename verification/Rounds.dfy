/** Fair rounds: whatever the hero does with his turn, every living enemy answers once before he acts
    again. */
module Rounds {
  import opened Scenarios
  import opened GameStates
  import opened Combat
  import opened Spells
  import opened CombatInvariant
  import opened EngineRuns
  import opened EnemyTurns

  /** Everybody who lives is due before the hero. */
  ghost predicate AllDue(c: CombatState)
    requires HERO in c.turnOrder && 0 <= c.currentTurn < |c.turnOrder|
  {
    forall i :: 0 <= i < |c.enemies| && c.enemies[i].hp > 0 ==> c.enemies[i].id in Upcoming(c, 0)
  }

  lemma {:induction false} DueFrom(c: CombatState, k: nat, m: nat)
    requires HERO in c.turnOrder && 0 <= c.currentTurn < |c.turnOrder| && k <= m < ToHero(c)
    requires Living(c.enemies, c.turnOrder[Place(c, m)])
    ensures c.turnOrder[Place(c, m)] in Upcoming(c, k)
    decreases m - k
  {
    hide Living, Place;
    if k < m {
      DueFrom(c, k + 1, m);
    }
  }

  /** How many steps lead from the place of the hero, whose turn it is, to that of `p`. */
  lemma StepsTo(c: CombatState, p: nat) returns (m: nat)
    requires 0 <= c.currentTurn < |c.turnOrder| && p < |c.turnOrder| && p != c.currentTurn
    ensures 1 <= m < |c.turnOrder| && Place(c, m) == p
  {
    m := if c.currentTurn < p then p - c.currentTurn else p + |c.turnOrder| - c.currentTurn;
  }

  /** Seen from `r` steps on, what was `m` steps away is `m - r` away, and a full round leads back. */
  lemma PlacesShift(c: CombatState, c': CombatState, r: nat, m: nat)
    requires 0 <= c.currentTurn < |c.turnOrder| && 1 <= r <= m < |c.turnOrder|
    requires c'.turnOrder == c.turnOrder && c'.currentTurn == Place(c, r)
    ensures 0 <= c'.currentTurn < |c'.turnOrder| && Place(c', m - r) == Place(c, m)
    ensures HERO in c.turnOrder && HeroIndex(c.turnOrder) == c.currentTurn ==> ToHero(c') == |c.turnOrder| - r
  {
  }

  lemma HeroIsHere(c: CombatState)
    requires Roster(c) && 0 <= c.currentTurn < |c.turnOrder| && HeroTurn(c)
    ensures HERO in c.turnOrder && HeroIndex(c.turnOrder) == c.currentTurn
  {
    hide Roster;
    TurnOrderDistinct(c);
  }

  lemma AdvancedSteps(c: CombatState)
    requires 0 <= c.currentTurn < |c.turnOrder|
    ensures var c', r := Advanced(c), Steps(c, 1);
            && c'.turnOrder == c.turnOrder && c'.enemies == c.enemies && c'.currentTurn == Place(c, r)
            && 1 <= r <= |c.turnOrder| && forall j :: 1 <= j < r ==> !Acts(c, c.turnOrder[Place(c, j)])
  {
    hide Acts;
  }

  /** From the hero's place on, the round leads past everybody else. */
  lemma RoundLeadsPastAll(c: CombatState, i: nat)
    requires Roster(c) && 0 <= c.currentTurn < |c.turnOrder| && HeroTurn(c)
    requires i < |c.enemies| && c.enemies[i].hp > 0
    ensures var c' := Advanced(c);
            && HERO in c'.turnOrder && 0 <= c'.currentTurn < |c'.turnOrder|
            && c.enemies[i].id in Upcoming(c', 0)
  {
    hide Roster, Living, Upcoming, Advanced, Place, Steps, HeroIndex, ToHero, FindEnemy;
    RosterOrder(c);
    HeroIsHere(c);
    AdvancedSteps(c);
    LivesByName(c, i);
    var n, id, c', r := |c.turnOrder|, c.enemies[i].id, Advanced(c), Steps(c, 1);
    var p :| 0 <= p < n && c.turnOrder[p] == id;
    var m := StepsTo(c, p);
    assert Acts(c, c.turnOrder[Place(c, m)]);
    PlacesShift(c, c', r, m);
    DueFrom(c', 0, m - r);
  }

  lemma LivesByName(c: CombatState, i: nat)
    requires Roster(c) && i < |c.enemies| && c.enemies[i].hp > 0
    ensures FindEnemy(c.enemies, c.enemies[i].id) == i && Living(c.enemies, c.enemies[i].id) && c.enemies[i].id != HERO
  {
    var j := FindEnemy(c.enemies, c.enemies[i].id);
    assert 0 <= j && c.enemies[j].id == c.enemies[i].id;
  }

  lemma AdvancedAllDue(c: CombatState)
    requires Roster(c) && 0 <= c.currentTurn < |c.turnOrder| && HeroTurn(c)
    ensures var c' := Advanced(c);
            HERO in c'.turnOrder && 0 <= c'.currentTurn < |c'.turnOrder| && AllDue(c')
  {
    hide Roster, Advanced, Upcoming;
    RosterOrder(c);
    AdvancedPointed(c);
    forall i | 0 <= i < |c.enemies| && c.enemies[i].hp > 0 ensures c.enemies[i].id in Upcoming(Advanced(c), 0) {
      RoundLeadsPastAll(c, i);
    }
  }

  /** `w'` is answered by all its living enemies, each once and in turn order. */
  ghost predicate AllAnswer(spec: Spec, w': World) {
    && WorldOK(w') && w'.combat.active
    && forall dice: nat -> int ::
         var acted := EnemyPhase(spec, w', dice, 0).acted;
         && (forall i, j :: 0 <= i < j < |acted| ==> acted[i] != acted[j])
         && (forall id :: id in acted <==> Living(w'.combat.enemies, id) && id != HERO)
  }

  lemma DueAnswer(spec: Spec, w: World)
    requires WorldOK(w) && w.combat.active && HERO in w.combat.turnOrder
    requires 0 <= w.combat.currentTurn < |w.combat.turnOrder| && AllDue(w.combat)
    ensures AllAnswer(spec, w)
  {
    hide EnemyPhase, Upcoming, Pointed, Healthy;
    forall dice: nat -> int
      ensures var acted := EnemyPhase(spec, w, dice, 0).acted;
              && (forall i, j :: 0 <= i < j < |acted| ==> acted[i] != acted[j])
              && (forall id :: id in acted <==> Living(w.combat.enemies, id) && id != HERO)
    {
      hide Roster;
      ActedInTurnOrder(spec, w, dice, 0);
      UpcomingDistinct(w.combat, 0);
      UpcomingLives(w.combat, 0);
      HeroIsNoEnemy(w.combat);
    }
  }

  lemma HeroIsNoEnemy(c: CombatState)
    requires Roster(c)
    ensures !Living(c.enemies, HERO)
  {
  }

  lemma {:induction false} UpcomingLives(c: CombatState, k: nat)
    requires HERO in c.turnOrder && 0 <= c.currentTurn < |c.turnOrder| && k <= ToHero(c)
    ensures forall id :: id in Upcoming(c, k) ==> Living(c.enemies, id)
    decreases ToHero(c) - k
  {
    if k < ToHero(c) {
      UpcomingLives(c, k + 1);
    }
  }

  /** A fight that is still on after the hero has attacked, defended, failed to escape or cast a spell
      is answered by all enemies that live by then. */
  lemma EveryTurnIsAnswered(spec: Spec, w: World, a: Action)
    requires WorldOK(w) && w.combat.active && HeroTurn(w.combat) && w.hero.hp > 0 && Callable(w)
    requires || (a.Hit? && Attacked(spec, w, a.target, a.roll).1.Ok?)
             || a.Guard? || a.RunFrom?
             || (a.Chant? && Cast(spec, w, a.spell, a.target, a.power).1.Ok?)
    requires Applied(spec, w, a).combat.active
    ensures AllAnswer(spec, Applied(spec, w, a))
  {
    hide AllAnswer, Roster, Pointed, Advanced, AllDue, AllDead, Healthy;
    var c, w' := w.combat, Applied(spec, w, a);
    PointedRange(c);
    ActionOK(spec, w, a);
    RosterSame(c, c.(heroDefending := a.Guard?));
    match a {
      case Guard => AdvancedAllDue(c.(heroDefending := true));
      case RunFrom(roll) => AdvancedAllDue(c.(heroDefending := false));
      case Hit(target, roll) => StruckAllDue(spec, w, FindEnemy(c.enemies, target), AtLeastOne(roll));
      case Chant(spell, target, power) =>
        if spec.spells[spell].effect == "damage" {
          StruckAllDue(spec, w, FindEnemy(c.enemies, Aim(w, target)), AtLeastOne(power.value));
        } else {
          AdvancedAllDue(c.(heroDefending := false));
        }
    }
    DueAnswer(spec, w');
  }

  lemma ActionOK(spec: Spec, w: World, a: Action)
    requires WorldOK(w) && Callable(w) && (a.Hit? || a.Guard? || a.RunFrom? || a.Chant?)
    ensures WorldOK(Applied(spec, w, a))
  {
    hide WorldOK, Attacked, Defended, Fled, Cast;
    match a {
      case Hit(target, roll) => AttackedOK(spec, w, target, roll);
      case Guard => DefendedOK(w);
      case RunFrom(roll) => FledOK(w, roll);
      case Chant(spell, target, power) => CastOK(spec, w, spell, target, power);
    }
  }

  lemma StruckAllDue(spec: Spec, w: World, i: nat, damage: int)
    requires CombatOK(w.combat) && HeroTurn(w.combat) && i < |w.combat.enemies| && 1 <= damage
    requires Struck(spec, w, i, damage).combat.active
    ensures var c' := Struck(spec, w, i, damage).combat;
            HERO in c'.turnOrder && 0 <= c'.currentTurn < |c'.turnOrder| && AllDue(c')
  {
    hide Roster, Pointed, Advanced, AllDue;
    var e := Hurt(w.combat.enemies[i], damage);
    var c := w.combat.(enemies := w.combat.enemies[i := e]);
    PointedRange(w.combat);
    RosterUpdate(w.combat, i, e);
    RosterSame(c, c.(heroDefending := false));
    AdvancedAllDue(c.(heroDefending := false));
  }
}
