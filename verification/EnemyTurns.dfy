/** The two drivers that let the enemies act until it is the hero's turn again. */
module EnemyTurns {
  import opened Scenarios
  import opened GameStates
  import opened Leveling
  import opened Combat
  import opened CombatInvariant

  // ---------- How far it is to the hero ----------

  function HeroIndex(order: seq<string>): (h: nat)
    requires HERO in order
    ensures h < |order| && order[h] == HERO
  {
    if order[0] == HERO then 0 else 1 + HeroIndex(order[1..])
  }

  /** Steps from the pointer forward to the hero, around the end of the order. */
  function ToHero(c: CombatState): (d: nat)
    requires HERO in c.turnOrder && 0 <= c.currentTurn < |c.turnOrder|
    ensures d < |c.turnOrder| && Place(c, d) == HeroIndex(c.turnOrder)
  {
    var h := HeroIndex(c.turnOrder);
    if c.currentTurn <= h then h - c.currentTurn else h + |c.turnOrder| - c.currentTurn
  }

  ghost function Remaining(w: World): nat
    requires WorldOK(w)
  {
    if w.combat.active then RosterOrder(w.combat); ToHero(w.combat) else 0
  }

  /** Nobody but the hero is to act. */
  predicate Settled(w: World) { !w.combat.active || HeroTurn(w.combat) }

  /** Advancing never steps over the hero. */
  lemma AdvancedDistance(c: CombatState)
    requires Roster(c) && 0 <= c.currentTurn < |c.turnOrder| && HERO in c.turnOrder && 0 < ToHero(c)
    ensures var c', r := Advanced(c), Steps(c, 1);
            && 0 <= c'.currentTurn < |c.turnOrder| && c'.turnOrder == c.turnOrder && c'.enemies == c.enemies
            && 1 <= r <= ToHero(c) && c'.currentTurn == Place(c, r)
            && ToHero(c') == ToHero(c) - r
  {
    assert Acts(c, c.turnOrder[Place(c, ToHero(c))]);
  }

  lemma HeroTurnDistance(c: CombatState)
    requires Roster(c) && 0 <= c.currentTurn < |c.turnOrder| && HERO in c.turnOrder
    ensures HeroTurn(c) <==> ToHero(c) == 0
  {
    if HeroTurn(c) {
      TurnOrderDistinct(c);
      var h := HeroIndex(c.turnOrder);
      assert c.turnOrder[c.currentTurn] == c.turnOrder[h];
    }
  }

  /** The combat an enemy's turn starts its advance from: unchanged, or with the runaway gone. */
  function AfterActing(c: CombatState): CombatState
    requires 0 <= c.currentTurn < |c.turnOrder|
  {
    var i := FindEnemy(c.enemies, c.turnOrder[c.currentTurn]);
    if i >= 0 && c.enemies[i].hp > 0 && RunsAway(c.enemies[i]) then c.(enemies := c.enemies[i := c.enemies[i].(hp := 0)]) else c
  }

  lemma AfterActingRoster(c: CombatState)
    requires Roster(c) && 0 <= c.currentTurn < |c.turnOrder|
    ensures Roster(AfterActing(c)) && AfterActing(c).turnOrder == c.turnOrder
    ensures AfterActing(c).currentTurn == c.currentTurn && |AfterActing(c).enemies| == |c.enemies|
    ensures forall id :: id != c.turnOrder[c.currentTurn] ==> (Living(AfterActing(c).enemies, id) <==> Living(c.enemies, id))
    ensures forall id :: Living(AfterActing(c).enemies, id) ==> Living(c.enemies, id)
  {
    var i := FindEnemy(c.enemies, c.turnOrder[c.currentTurn]);
    if i >= 0 && RunsAway(c.enemies[i]) {
      var gone := c.enemies[i].(hp := 0);
      RosterUpdate(c, i, gone);
      LivingUpdate(c.enemies, i, gone);
    }
  }

  /** What an enemy's turn does to a sound fight: it is never skipped, the pointer comes
      closer to the hero, and his hit points only fall. */
  lemma EnemyActedShape(spec: Spec, w: World, roll: int)
    requires WorldOK(w) && !Settled(w)
    ensures var (w', r) := EnemyActed(spec, w, roll);
            && r.Ok? && r.value.enemyID == w.combat.turnOrder[w.combat.currentTurn] && !r.value.action.Skip?
            && WorldOK(w') && w'.hero.hp <= w.hero.hp && w'.hero == w.hero.(hp := w'.hero.hp)
            && (r.value.action.Hit? ==> w'.combat.active && r.value.action.heroDead == (w'.hero.hp <= 0))
            && (r.value.action.Run? ==> w'.hero == w.hero)
            && (w'.combat.active ==> w'.combat == Advanced(AfterActing(w.combat)))
            && (!w'.combat.active ==> r.value.action.Run? && AllDead(AfterActing(w.combat).enemies))
  {
    EnemyActedOK(spec, w, roll);
  }

  lemma EnemyActedCloser(spec: Spec, w: World, roll: int)
    requires WorldOK(w) && !Settled(w)
    ensures WorldOK(EnemyActed(spec, w, roll).0)
    ensures Remaining(EnemyActed(spec, w, roll).0) < Remaining(w)
  {
    hide Roster, EnemyActed, Advanced, AfterActing, Pointed, Healthy;
    var c := w.combat;
    PointedRange(c);
    RosterOrder(c);
    EnemyActedShape(spec, w, roll);
    HeroTurnDistance(c);
    AfterActingRoster(c);
    AdvancedDistance(AfterActing(c));
  }

  // ---------- The daemon's driver ----------

  /** The world after the enemies' turns and the ids of those who acted, in order. */
  datatype Phase = Phase(world: World, acted: seq<string>, heroDied: bool)

  /** All enemy turns up to the hero's. `dice(i)` is the i-th turn's roll. */
  ghost function EnemyPhase(spec: Spec, w: World, dice: nat -> int, i: nat): (p: Phase)
    requires WorldOK(w)
    ensures p.world.hero.level == w.hero.level
    decreases Remaining(w)
  {
    if Settled(w) then Phase(w, [], false)
    else
      EnemyActedCloser(spec, w, dice(i));
      var (w', r) := EnemyActed(spec, w, dice(i));
      EnemyActedShape(spec, w, dice(i));
      var rest := EnemyPhase(spec, w', dice, i + 1);
      rest.(acted := [r.value.enemyID] + rest.acted)
  }

  lemma EnemyPhaseUnfolds(spec: Spec, w: World, dice: nat -> int, i: nat)
    requires WorldOK(w)
    ensures Settled(w) ==> EnemyPhase(spec, w, dice, i) == Phase(w, [], false)
    ensures !Settled(w) ==>
      && TurnReady(w)
      && var (w', r) := EnemyActed(spec, w, dice(i));
      && r.Ok? && !r.value.action.Skip? && WorldOK(w') && Remaining(w') < Remaining(w)
      && EnemyPhase(spec, w, dice, i) == EnemyPhase(spec, w', dice, i + 1).(acted := [r.value.enemyID] + EnemyPhase(spec, w', dice, i + 1).acted)
  {
    ReadyToAct(w);
    if !Settled(w) {
      EnemyActedCloser(spec, w, dice(i));
      EnemyActedShape(spec, w, dice(i));
    }
  }

  /** daemon.processEnemyTurns: its cap of twice the turn order never cuts the loop short, so
      the outcome is that of the uncapped phase. */
  method DaemonEnemyTurns(spec: Spec, state: GameState, dice: nat -> int) returns (turns: seq<string>)
    requires WorldOK(state.Snap())
    modifies state`hero, state`combat, state`roomState
    ensures state.Snap() == EnemyPhase(spec, old(state.Snap()), dice, 0).world
    ensures turns == EnemyPhase(spec, old(state.Snap()), dice, 0).acted
  {
    hide WorldOK, EnemyActed, EnemyPhase, Remaining;
    turns := [];
    var maxIter := |state.combat.turnOrder| * 2;
    if maxIter < 1 {
      maxIter := 1;
    }
    ghost var whole := EnemyPhase(spec, state.Snap(), dice, 0);
    var i := 0;
    RemainingBound(state.Snap());
    assert [] + whole.acted == whole.acted;
    while i < maxIter && state.combat.active && !HeroTurn(state.combat)
      invariant WorldOK(state.Snap())
      invariant Settled(state.Snap()) || i + Remaining(state.Snap()) < maxIter
      invariant whole == EnemyPhase(spec, state.Snap(), dice, i).(acted := turns + EnemyPhase(spec, state.Snap(), dice, i).acted)
      decreases maxIter - i
    {
      EnemyPhaseUnfolds(spec, state.Snap(), dice, i);
      var r := ProcessEnemyTurn(spec, state, dice(i));
      if r.Err? {
        break;
      }
      ghost var rest := EnemyPhase(spec, state.Snap(), dice, i + 1).acted;
      assert turns + ([r.value.enemyID] + rest) == (turns + [r.value.enemyID]) + rest;
      i := i + 1;
      if r.value.action.Skip? {
        continue;
      }
      turns := turns + [r.value.enemyID];
    }
    EnemyPhaseUnfolds(spec, state.Snap(), dice, i);
    assert turns + [] == turns;
  }

  /** The pointer is in range, so an enemy's turn can be asked for. */
  predicate TurnReady(w: World) {
    WellIndexed(w.combat) && (w.combat.active ==> w.combat.turnOrder != [])
  }

  lemma ReadyToAct(w: World)
    requires WorldOK(w)
    ensures TurnReady(w)
  {
  }

  lemma RemainingBound(w: World)
    requires WorldOK(w)
    ensures w.combat.active ==> Remaining(w) < |w.combat.turnOrder|
  {
  }

  /** The phase leaves the fight sound and settled, and can only hurt the hero. */
  lemma {:induction false} EnemyPhaseSettles(spec: Spec, w: World, dice: nat -> int, i: nat)
    requires WorldOK(w)
    ensures var end := EnemyPhase(spec, w, dice, i).world;
            WorldOK(end) && Settled(end) && end.hero.hp <= w.hero.hp && end.hero == w.hero.(hp := end.hero.hp)
    decreases Remaining(w)
  {
    hide CombatOK, EnemyActed;
    if !Settled(w) {
      EnemyActedCloser(spec, w, dice(i));
      EnemyActedShape(spec, w, dice(i));
      ReadyToAct(w);
      EnemyPhaseSettles(spec, EnemyActed(spec, w, dice(i)).0, dice, i + 1);
    }
  }

  // ---------- Who acts ----------

  /** The living enemies between the pointer and the hero, from `k` steps on, in turn order. */
  function Upcoming(c: CombatState, k: nat): seq<string>
    requires HERO in c.turnOrder && 0 <= c.currentTurn < |c.turnOrder| && k <= ToHero(c)
    decreases ToHero(c) - k
  {
    if k == ToHero(c) then []
    else
      var id := c.turnOrder[Place(c, k)];
      (if Living(c.enemies, id) then [id] else []) + Upcoming(c, k + 1)
  }

  /** Passing over the dead changes nothing. */
  lemma {:induction false} UpcomingSkips(c: CombatState, k: nat, r: nat)
    requires HERO in c.turnOrder && 0 <= c.currentTurn < |c.turnOrder| && k <= r <= ToHero(c)
    requires forall j :: k <= j < r ==> !Living(c.enemies, c.turnOrder[Place(c, j)])
    ensures Upcoming(c, k) == Upcoming(c, r)
    decreases r - k
  {
    if k < r {
      UpcomingSkips(c, k + 1, r);
    }
  }

  /** Seen from `r` steps on, the rest of the round is the same. */
  lemma {:induction false} UpcomingShifts(c: CombatState, d: CombatState, r: nat, k: nat)
    requires HERO in c.turnOrder && 0 <= c.currentTurn < |c.turnOrder|
    requires d.turnOrder == c.turnOrder && 0 <= d.currentTurn < |c.turnOrder|
    requires r <= ToHero(c) && d.currentTurn == Place(c, r) && ToHero(d) == ToHero(c) - r && k <= ToHero(d)
    requires forall j :: r <= j < ToHero(c) ==>
      (Living(d.enemies, c.turnOrder[Place(c, j)]) <==> Living(c.enemies, c.turnOrder[Place(c, j)]))
    ensures Upcoming(d, k) == Upcoming(c, r + k)
    decreases ToHero(d) - k
  {
    if k < ToHero(d) {
      assert Place(d, k) == Place(c, r + k);
      UpcomingShifts(c, d, r, k + 1);
    }
  }

  lemma PlacesDiffer(c: CombatState, i: nat, j: nat)
    requires Roster(c) && 0 <= c.currentTurn < |c.turnOrder| && i < j < |c.turnOrder|
    ensures c.turnOrder[Place(c, i)] != c.turnOrder[Place(c, j)]
  {
    TurnOrderDistinct(c);
    assert Place(c, i) != Place(c, j);
  }

  /** After one enemy has acted, the others are still due in the same order. */
  lemma UpcomingAfterActing(w: World)
    requires WorldOK(w) && !Settled(w) && HERO in w.combat.turnOrder
    ensures var c, d := w.combat, Advanced(AfterActing(w.combat));
            && 0 <= d.currentTurn < |d.turnOrder| && d.turnOrder == c.turnOrder && 0 < ToHero(c)
            && Upcoming(c, 0) == [c.turnOrder[c.currentTurn]] + Upcoming(c, 1)
            && Upcoming(c, 1) == Upcoming(d, 0)
  {
    hide Roster, Healthy;
    var c := w.combat;
    var b := AfterActing(c);
    PointedRange(c);
    HeroTurnDistance(c);
    AfterActingRoster(c);
    assert Place(c, 0) == c.currentTurn;
    AdvancedDistance(b);
    var d, r := Advanced(b), Steps(b, 1);
    forall j | 1 <= j < |c.turnOrder|
      ensures Living(b.enemies, c.turnOrder[Place(c, j)]) <==> Living(c.enemies, c.turnOrder[Place(c, j)])
    {
      PlacesDiffer(c, 0, j);
    }
    forall j | 1 <= j < r ensures !Living(c.enemies, c.turnOrder[Place(c, j)]) {
      assert Place(b, j) == Place(c, j);
      assert !Acts(b, b.turnOrder[Place(b, j)]);
    }
    UpcomingSkips(c, 1, r);
    UpcomingShifts(c, d, r, 0);
  }

  /** Exactly the living enemies before the hero act, each once, in turn order. */
  lemma {:induction false} ActedInTurnOrder(spec: Spec, w: World, dice: nat -> int, i: nat)
    requires WorldOK(w) && w.combat.active && HERO in w.combat.turnOrder
    ensures EnemyPhase(spec, w, dice, i).acted == Upcoming(w.combat, 0)
    decreases Remaining(w)
  {
    hide Roster, Healthy, EnemyActed, Advanced, AfterActing, Living;
    var c := w.combat;
    PointedRange(c);
    HeroTurnDistance(c);
    if !Settled(w) {
      EnemyActedCloser(spec, w, dice(i));
      EnemyActedShape(spec, w, dice(i));
      UpcomingAfterActing(w);
      var w' := EnemyActed(spec, w, dice(i)).0;
      if w'.combat.active {
        ActedInTurnOrder(spec, w', dice, i + 1);
      } else {
        AfterActingRoster(c);
        NobodyLeft(AfterActing(c));
        NobodyUpcoming(Advanced(AfterActing(c)), 0);
      }
    }
  }

  lemma NobodyLeft(c: CombatState)
    requires AllDead(c.enemies) && WellIndexed(c)
    ensures forall id :: !Living(Advanced(c).enemies, id)
  {
  }

  lemma {:induction false} NobodyUpcoming(c: CombatState, k: nat)
    requires HERO in c.turnOrder && 0 <= c.currentTurn < |c.turnOrder| && k <= ToHero(c)
    requires forall id :: !Living(c.enemies, id)
    ensures Upcoming(c, k) == []
    decreases ToHero(c) - k
  {
    if k < ToHero(c) {
      NobodyUpcoming(c, k + 1);
    }
  }

  /** No enemy is due twice. */
  lemma {:induction false} UpcomingDistinct(c: CombatState, k: nat)
    requires Roster(c) && HERO in c.turnOrder && 0 <= c.currentTurn < |c.turnOrder| && k <= ToHero(c)
    ensures forall id :: id in Upcoming(c, k) ==> exists j :: k <= j < ToHero(c) && c.turnOrder[Place(c, j)] == id
    ensures forall i, j :: 0 <= i < j < |Upcoming(c, k)| ==> Upcoming(c, k)[i] != Upcoming(c, k)[j]
    decreases ToHero(c) - k
  {
    hide Roster;
    if k < ToHero(c) {
      UpcomingDistinct(c, k + 1);
      var id := c.turnOrder[Place(c, k)];
      forall j | k + 1 <= j < ToHero(c) ensures c.turnOrder[Place(c, j)] != id {
        PlacesDiffer(c, k, j);
      }
      assert id !in Upcoming(c, k + 1);
      assert Upcoming(c, k) == [id] + Upcoming(c, k + 1) || Upcoming(c, k) == Upcoming(c, k + 1);
    }
  }

  // ---------- The game loop's driver ----------

  /** The same turns, but the loop stops at the hero's death and levels him up when the last
      enemy has run away. */
  ghost function LoopPhase(spec: Spec, w: World, dice: nat -> int, i: nat): Phase
    requires WorldOK(w) && -1 <= w.hero.level
    decreases Remaining(w)
  {
    if Settled(w) then Phase(w, [], false)
    else
      EnemyActedCloser(spec, w, dice(i));
      EnemyActedShape(spec, w, dice(i));
      var (w', r) := EnemyActed(spec, w, dice(i));
      if r.value.action.Hit? && r.value.action.heroDead then Phase(w', [r.value.enemyID], true)
      else if !w'.combat.active then Phase(w'.(hero := Leveled(w'.hero)), [r.value.enemyID], false)
      else
        var rest := LoopPhase(spec, w', dice, i + 1);
        rest.(acted := [r.value.enemyID] + rest.acted)
  }

  lemma LoopPhaseUnfolds(spec: Spec, w: World, dice: nat -> int, i: nat)
    requires WorldOK(w) && -1 <= w.hero.level
    ensures Settled(w) ==> LoopPhase(spec, w, dice, i) == Phase(w, [], false)
    ensures !Settled(w) ==>
      && TurnReady(w)
      && var (w', r) := EnemyActed(spec, w, dice(i));
      && r.Ok? && !r.value.action.Skip? && WorldOK(w') && w'.hero.level == w.hero.level && Remaining(w') < Remaining(w)
      && (r.value.action.Hit? ==> w'.combat.active) && (!w'.combat.active ==> w'.combat == NO_COMBAT)
      && LoopPhase(spec, w, dice, i) ==
         if r.value.action.Hit? && r.value.action.heroDead then Phase(w', [r.value.enemyID], true)
         else if !w'.combat.active then Phase(w'.(hero := Leveled(w'.hero)), [r.value.enemyID], false)
         else LoopPhase(spec, w', dice, i + 1).(acted := [r.value.enemyID] + LoopPhase(spec, w', dice, i + 1).acted)
  {
    ReadyToAct(w);
    if !Settled(w) {
      EnemyActedCloser(spec, w, dice(i));
      EnemyActedShape(spec, w, dice(i));
    }
  }

  /** Loop.processEnemyTurns, events reduced to who acted and whether the hero died. */
  method LoopEnemyTurns(spec: Spec, state: GameState, dice: nat -> int) returns (acted: seq<string>, heroDied: bool)
    requires WorldOK(state.Snap()) && -1 <= state.hero.level
    modifies state`hero, state`combat, state`roomState
    ensures Phase(state.Snap(), acted, heroDied) == LoopPhase(spec, old(state.Snap()), dice, 0)
  {
    hide WorldOK, EnemyActed, LoopPhase, Leveled, Remaining;
    acted, heroDied := [], false;
    var maxIter := |state.combat.turnOrder|;
    if maxIter < 1 {
      maxIter := 1;
    }
    ghost var start := state.Snap();
    ghost var whole := LoopPhase(spec, start, dice, 0);
    var i := 0;
    RemainingBound(start);
    assert [] + whole.acted == whole.acted;
    while i < maxIter && state.combat.active && !HeroTurn(state.combat)
      invariant WorldOK(state.Snap()) && -1 <= state.hero.level && !heroDied
      invariant Settled(state.Snap()) || i + Remaining(state.Snap()) < maxIter
      invariant whole == LoopPhase(spec, state.Snap(), dice, i).(acted := acted + LoopPhase(spec, state.Snap(), dice, i).acted)
      decreases maxIter - i
    {
      ghost var w := state.Snap();
      LoopPhaseUnfolds(spec, w, dice, i);
      var r := ProcessEnemyTurn(spec, state, dice(i));
      if r.Err? {
        return;
      }
      ghost var rest := LoopPhase(spec, state.Snap(), dice, i + 1).acted;
      assert acted + ([r.value.enemyID] + rest) == (acted + [r.value.enemyID]) + rest;
      i := i + 1;
      acted := acted + [r.value.enemyID];
      match r.value.action {
        case Hit(_, dead) =>
          if dead {
            heroDied := true;
            return;
          }
        case Run =>
          if !state.combat.active {
            var up := CheckLevelUp(state);
            FightOver(state.Snap());
            LoopPhaseUnfolds(spec, state.Snap(), dice, i);
            assert acted + [] == acted;
          }
        case Skip =>
      }
    }
    LoopPhaseUnfolds(spec, state.Snap(), dice, i);
    assert acted + [] == acted;
  }

  lemma FightOver(w: World)
    requires w.combat == NO_COMBAT
    ensures WorldOK(w) && Settled(w)
  {
  }

  /** The loop's run ends settled, or with the hero dead. */
  lemma {:induction false} LoopPhaseSettles(spec: Spec, w: World, dice: nat -> int, i: nat)
    requires WorldOK(w) && -1 <= w.hero.level
    ensures var p := LoopPhase(spec, w, dice, i);
            && WorldOK(p.world) && -1 <= p.world.hero.level
            && (if p.heroDied then p.world.hero.hp <= 0 else Settled(p.world))
    decreases Remaining(w)
  {
    hide CombatOK, EnemyActed, Leveled;
    if !Settled(w) {
      EnemyActedCloser(spec, w, dice(i));
      EnemyActedShape(spec, w, dice(i));
      ReadyToAct(w);
      var w' := EnemyActed(spec, w, dice(i)).0;
      if w'.combat.active {
        LoopPhaseSettles(spec, w', dice, i + 1);
      }
    }
  }

  /** If the hero survives the daemon's run, the loop's run does the same, up to the level-up
      it adds when the fight ended by running away. */
  lemma {:induction false} DriversAgree(spec: Spec, w: World, dice: nat -> int, i: nat)
    requires WorldOK(w) && -1 <= w.hero.level
    requires EnemyPhase(spec, w, dice, i).world.hero.hp > 0
    ensures var d, l := EnemyPhase(spec, w, dice, i), LoopPhase(spec, w, dice, i);
            && l.acted == d.acted && !l.heroDied
            && l.world == if w.combat.active && !d.world.combat.active then d.world.(hero := Leveled(d.world.hero)) else d.world
    decreases Remaining(w)
  {
    hide CombatOK, EnemyActed, Leveled;
    if !Settled(w) {
      EnemyActedCloser(spec, w, dice(i));
      EnemyActedShape(spec, w, dice(i));
      ReadyToAct(w);
      var w' := EnemyActed(spec, w, dice(i)).0;
      EnemyPhaseSettles(spec, w', dice, i + 1);
      DriversAgree(spec, w', dice, i + 1);
    }
  }

  /** If the loop sees the hero die, he is dead at the end of the daemon's run as well. */
  lemma {:induction false} DeathIsCommon(spec: Spec, w: World, dice: nat -> int, i: nat)
    requires WorldOK(w) && -1 <= w.hero.level
    requires LoopPhase(spec, w, dice, i).heroDied
    ensures EnemyPhase(spec, w, dice, i).world.hero.hp <= 0
    ensures LoopPhase(spec, w, dice, i).acted <= EnemyPhase(spec, w, dice, i).acted
    decreases Remaining(w)
  {
    hide CombatOK, EnemyActed, Leveled;
    if !Settled(w) {
      EnemyActedCloser(spec, w, dice(i));
      EnemyActedShape(spec, w, dice(i));
      ReadyToAct(w);
      var (w', r) := EnemyActed(spec, w, dice(i));
      EnemyPhaseSettles(spec, w', dice, i + 1);
      if !(r.value.action.Hit? && r.value.action.heroDead) {
        DeathIsCommon(spec, w', dice, i + 1);
      }
    }
  }
}
