/** The accounts of one encounter: who was slain, who ran, what experience that brought, and
    how many blows it can take. */
module Encounter {
  import opened Wrappers
  import opened Graphs
  import opened Scenarios
  import opened GameStates
  import opened Moving
  import opened Leveling
  import opened Inventory
  import opened Combat
  import opened Spells
  import opened CombatInvariant
  import opened EngineRuns

  /** Places of the enemies the hero dropped to 0, of those that ran, and the blows dealt. */
  datatype Ledger = Ledger(slain: set<nat>, fled: set<nat>, blows: nat)

  function TotalHP(es: seq<Enemy>): int {
    if es == [] then 0 else TotalHP(es[..|es| - 1]) + es[|es| - 1].hp
  }

  function TotalMax(es: seq<Enemy>): int {
    if es == [] then 0 else TotalMax(es[..|es| - 1]) + es[|es| - 1].maxHP
  }

  /** The MaxHP of the enemies at the given places, each counted once. */
  function MaxHPOf(es: seq<Enemy>, s: set<nat>): int {
    if es == [] then 0
    else MaxHPOf(es[..|es| - 1], s) + if |es| - 1 in s then es[|es| - 1].maxHP else 0
  }

  function Cleared(w: World): set<string> {
    set r | r in w.roomState && w.roomState[r].cleared
  }

  /** The place of the enemy a successful attack or damage spell strikes. */
  function Blow(spec: Spec, w: World, a: Action): Option<(nat, int)>
    requires WellIndexed(w.combat)
  {
    if a.Hit? && Attacked(spec, w, a.target, a.roll).1.Ok? then
      Some((FindEnemy(w.combat.enemies, a.target), AtLeastOne(a.roll)))
    else if a.Chant? && Cast(spec, w, a.spell, a.target, a.power).1.Ok? && spec.spells[a.spell].effect == "damage" then
      Some((FindEnemy(w.combat.enemies, Aim(w, a.target)), AtLeastOne(a.power.value)))
    else None
  }

  /** The place of the enemy that runs away in this action. */
  function Runaway(w: World, a: Action): Option<nat>
    requires WorldOK(w)
  {
    if !a.EnemyTurn? || !w.combat.active || HeroTurn(w.combat) then None
    else
      var i := FindEnemy(w.combat.enemies, w.combat.turnOrder[w.combat.currentTurn]);
      if i >= 0 && w.combat.enemies[i].hp > 0 && RunsAway(w.combat.enemies[i]) then Some(i) else None
  }

  ghost function Entered(spec: Spec, w: World, a: Action, l: Ledger): Ledger
    requires WorldOK(w) && EngineRuns.Callable(w)
  {
    match Blow(spec, w, a)
    case Some((i, damage)) =>
      Ledger(if w.combat.enemies[i].hp <= damage then l.slain + {i} else l.slain, l.fled, l.blows + 1)
    case None =>
      if Runaway(w, a).Some? then l.(fled := l.fled + {Runaway(w, a).value}) else l
  }

  /** While the fight lasts: the books balance against the enemies `es` it began with. */
  ghost predicate Balanced(w: World, es: seq<Enemy>, xp: int, room: string, cleared: set<string>, l: Ledger) {
    && |w.combat.enemies| == |es|
    && (forall i :: 0 <= i < |es| ==> w.combat.enemies[i] == es[i].(hp := w.combat.enemies[i].hp))
    && (forall i: nat :: i < |es| ==> (w.combat.enemies[i].hp <= 0 <==> i in l.slain || i in l.fled))
    && l.slain !! l.fled
    && w.hero.xp == xp + MaxHPOf(es, l.slain)
    && l.blows + TotalHP(w.combat.enemies) <= TotalMax(es)
    && w.currentRoom == room && Cleared(w) == cleared
  }

  /** Once it is over: the experience is settled, and either everybody is accounted for and the
      room of the fight is the one marked cleared, or the hero fled and no room was. */
  ghost predicate Settlement(w: World, es: seq<Enemy>, xp: int, room: string, cleared: set<string>, l: Ledger,
      heroFled: bool) {
    && l.slain !! l.fled
    && w.hero.xp == xp + MaxHPOf(es, l.slain)
    && l.blows <= TotalMax(es)
    && w.currentRoom == room
    && if heroFled then Cleared(w) == cleared
       else (forall i: nat :: i < |es| ==> i in l.slain || i in l.fled) && Cleared(w) == cleared + {room}
  }

  // ---------- Sums ----------

  lemma {:induction false} TotalHPUpdate(es: seq<Enemy>, i: nat, e: Enemy)
    requires i < |es|
    ensures TotalHP(es[i := e]) == TotalHP(es) - es[i].hp + e.hp
  {
    var m := |es| - 1;
    if i < m {
      TotalHPUpdate(es[..m], i, e);
      assert es[i := e][..m] == es[..m][i := e];
    } else {
      assert es[i := e][..m] == es[..m];
    }
  }

  lemma {:induction false} TotalHPNonNegative(es: seq<Enemy>)
    requires Healthy(es)
    ensures 0 <= TotalHP(es) <= TotalMax(es)
  {
    if es != [] {
      TotalHPNonNegative(es[..|es| - 1]);
    }
  }

  lemma {:induction false} MaxHPAdd(es: seq<Enemy>, s: set<nat>, i: nat)
    requires i !in s
    ensures MaxHPOf(es, s + {i}) == MaxHPOf(es, s) + if i < |es| then es[i].maxHP else 0
  {
    if es != [] {
      MaxHPAdd(es[..|es| - 1], s, i);
    }
  }

  lemma {:induction false} MaxHPNone(es: seq<Enemy>)
    ensures MaxHPOf(es, {}) == 0
  {
    if es != [] {
      MaxHPNone(es[..|es| - 1]);
    }
  }

  // ---------- One action ----------

  lemma EnsuredCleared(spec: Spec, w: World, room: string)
    ensures Cleared(Ensured(spec, w, room)) == Cleared(w)
  {
    var w' := Ensured(spec, w, room);
    forall r ensures r in Cleared(w') <==> r in Cleared(w) {
    }
  }

  lemma VictoryCleared(spec: Spec, w: World)
    ensures Cleared(Victory(spec, w)) == Cleared(w) + {w.currentRoom}
  {
    var w' := Victory(spec, w);
    forall r ensures r in Cleared(w') <==> r in Cleared(w) || r == w.currentRoom {
    }
  }

  ghost predicate Booked(w: World, es: seq<Enemy>, xp: int, room: string, cleared: set<string>, l: Ledger,
      heroFled: bool) {
    if w.combat.active then Balanced(w, es, xp, room, cleared, l)
    else Settlement(w, es, xp, room, cleared, l, heroFled)
  }

  /** A blow lowers the living enemies' hit points, pays for a kill once, and only a kill. */
  lemma BlowBooked(spec: Spec, w: World, i: nat, damage: int, es: seq<Enemy>, xp: int, room: string,
      cleared: set<string>, l: Ledger)
    requires CombatOK(w.combat) && Balanced(w, es, xp, room, cleared, l)
    requires i < |w.combat.enemies| && w.combat.enemies[i].hp > 0 && damage >= 1
    ensures var l' := Ledger(if w.combat.enemies[i].hp <= damage then l.slain + {i} else l.slain, l.fled, l.blows + 1);
            var w' := Struck(spec, w, i, damage);
            && Booked(w', es, xp, room, cleared, l', false)
            && (w'.combat.active ==> TotalHP(w'.combat.enemies) < TotalHP(w.combat.enemies))
  {
    hide Roster, Pointed, Advanced, Cleared, Victory, Balanced;
    PointedRange(w.combat);
    var e := Hurt(w.combat.enemies[i], damage);
    var after := w.combat.enemies[i := e];
    var c := w.combat.(enemies := after, heroDefending := false);
    var h := if e.hp <= 0 then w.hero.(xp := w.hero.xp + e.maxHP) else w.hero;
    var l' := Ledger(if w.combat.enemies[i].hp <= damage then l.slain + {i} else l.slain, l.fled, l.blows + 1);
    var hit := w.(hero := h, combat := w.combat.(enemies := after));
    BlowBalances(w, i, damage, es, xp, room, cleared, l);
    ClearedSame(w, hit);
    if AllDead(after) {
      VictoryCleared(spec, w.(hero := h));
      VictoryEnds(spec, w.(hero := h));
      ClearedSame(w, w.(hero := h));
      AllDeadSettles(hit, Victory(spec, w.(hero := h)), es, xp, room, cleared, l');
    } else {
      RosterUpdate(w.combat, i, e);
      RosterSame(w.combat.(enemies := after), c);
      AdvancedPointed(c);
      var w' := w.(hero := h, combat := Advanced(c));
      ClearedSame(w, w');
      QuietBooked(hit, w', es, xp, room, cleared, l');
    }
  }

  lemma HurtHealthy(es: seq<Enemy>, i: nat, damage: int)
    requires Healthy(es) && i < |es| && damage >= 1
    ensures Healthy(es[i := Hurt(es[i], damage)])
  {}

  /** The books after the damage, before anybody looks whether the fight is over. */
  lemma BlowBalances(w: World, i: nat, damage: int, es: seq<Enemy>, xp: int, room: string, cleared: set<string>,
      l: Ledger)
    requires CombatOK(w.combat) && Balanced(w, es, xp, room, cleared, l)
    requires i < |w.combat.enemies| && w.combat.enemies[i].hp > 0 && damage >= 1
    ensures var e := Hurt(w.combat.enemies[i], damage);
            var after := w.combat.enemies[i := e];
            var h := if e.hp <= 0 then w.hero.(xp := w.hero.xp + e.maxHP) else w.hero;
            var l' := Ledger(if w.combat.enemies[i].hp <= damage then l.slain + {i} else l.slain, l.fled, l.blows + 1);
            && Balanced(w.(hero := h, combat := w.combat.(enemies := after)), es, xp, room, cleared, l')
            && TotalHP(after) < TotalHP(w.combat.enemies) && 0 <= TotalHP(after)
  {
    hide Roster, Pointed, Cleared, TotalHP, MaxHPOf, TotalMax, Healthy, AllDead;
    var e := Hurt(w.combat.enemies[i], damage);
    var after := w.combat.enemies[i := e];
    var h := if e.hp <= 0 then w.hero.(xp := w.hero.xp + e.maxHP) else w.hero;
    var l' := Ledger(if w.combat.enemies[i].hp <= damage then l.slain + {i} else l.slain, l.fled, l.blows + 1);
    TotalHPUpdate(w.combat.enemies, i, e);
    MaxHPAdd(es, l.slain, i);
    HurtHealthy(w.combat.enemies, i, damage);
    TotalHPNonNegative(after);
    ClearedSame(w, w.(hero := h, combat := w.combat.(enemies := after)));
    forall j: nat | j < |es| ensures after[j].hp <= 0 <==> j in l'.slain || j in l'.fled {
      assert w.combat.enemies[j].hp <= 0 <==> j in l.slain || j in l.fled;
    }
  }

  /** Balanced books over a field of dead enemies settle when the fight is declared won. */
  lemma AllDeadSettles(w: World, won: World, es: seq<Enemy>, xp: int, room: string, cleared: set<string>, l: Ledger)
    requires Balanced(w, es, xp, room, cleared, l) && AllDead(w.combat.enemies) && 0 <= TotalHP(w.combat.enemies)
    requires won.combat == NO_COMBAT && won.hero == w.hero && won.currentRoom == w.currentRoom
    requires Cleared(won) == Cleared(w) + {w.currentRoom}
    ensures Settlement(won, es, xp, room, cleared, l, false)
  {
    hide Cleared;
    forall j: nat | j < |es| ensures j in l.slain || j in l.fled {
      assert w.combat.enemies[j].hp <= 0;
    }
  }

  lemma ClearedSame(w: World, w': World)
    requires w.roomState == w'.roomState
    ensures Cleared(w) == Cleared(w')
  {
  }

  /** An enemy's turn: a runaway is entered as fled and brings nothing; a hit changes no account. */
  lemma EnemyTurnBooked(spec: Spec, w: World, roll: int, es: seq<Enemy>, xp: int, room: string, cleared: set<string>,
      l: Ledger)
    requires WorldOK(w) && w.combat.active && EngineRuns.Callable(w) && Balanced(w, es, xp, room, cleared, l)
    ensures var a := EnemyTurn(roll);
            Booked(EnemyActed(spec, w, roll).0, es, xp, room, cleared, Entered(spec, w, a, l), false)
  {
    hide Roster, Pointed, Advanced, Cleared, Victory, Mitigated;
    var c := w.combat;
    PointedRange(c);
    var w' := EnemyActed(spec, w, roll).0;
    if !HeroTurn(c) {
      var i := FindEnemy(c.enemies, c.turnOrder[c.currentTurn]);
      if Runaway(w, EnemyTurn(roll)).Some? {
        RunawayBooked(spec, w, i, es, xp, room, cleared, l);
      } else {
        AdvancedPointed(c);
        ClearedSame(w, w');
      }
    }
  }

  lemma RunawayBooked(spec: Spec, w: World, i: nat, es: seq<Enemy>, xp: int, room: string, cleared: set<string>,
      l: Ledger)
    requires CombatOK(w.combat) && Balanced(w, es, xp, room, cleared, l)
    requires i < |w.combat.enemies| && w.combat.enemies[i].hp > 0
    ensures var c := w.combat.(enemies := w.combat.enemies[i := w.combat.enemies[i].(hp := 0)]);
            && WellIndexed(c)
            && var w' := w.(combat := Advanced(c));
            Booked(if AllDead(w'.combat.enemies) then Victory(spec, w') else w', es, xp, room, cleared, l.(fled := l.fled + {i}), false)
  {
    hide Roster, Pointed, Advanced, Cleared, Victory, TotalHP, MaxHPOf, TotalMax;
    PointedRange(w.combat);
    var e := w.combat.enemies[i].(hp := 0);
    var after := w.combat.enemies[i := e];
    var c := w.combat.(enemies := after);
    var l' := l.(fled := l.fled + {i});
    TotalHPUpdate(w.combat.enemies, i, e);
    TotalHPNonNegative(after);
    RosterUpdate(w.combat, i, e);
    AdvancedPointed(c);
    var w' := w.(combat := Advanced(c));
    forall j: nat | j < |es| ensures after[j].hp <= 0 <==> j in l'.slain || j in l'.fled {
      assert w.combat.enemies[j].hp <= 0 <==> j in l.slain || j in l.fled;
    }
    ClearedSame(w, w');
    if AllDead(after) {
      forall j: nat | j < |es| ensures j in l'.slain || j in l'.fled {
        assert after[j].hp <= 0;
      }
      VictoryCleared(spec, w');
      VictoryEnds(spec, w');
    }
  }

  /** Everything else leaves the enemies, the experience and the cleared rooms alone. */
  lemma QuietBooked(w: World, w': World, es: seq<Enemy>, xp: int, room: string, cleared: set<string>, l: Ledger)
    requires Balanced(w, es, xp, room, cleared, l)
    requires w'.combat.enemies == w.combat.enemies && w'.hero.xp == w.hero.xp
    requires w'.currentRoom == w.currentRoom && Cleared(w') == Cleared(w)
    ensures Balanced(w', es, xp, room, cleared, l)
  {
  }

  lemma SpentTurnEnemies(w: World, guard: bool)
    requires CombatOK(w.combat)
    ensures Advanced(w.combat.(heroDefending := guard)).enemies == w.combat.enemies
    ensures Advanced(w.combat.(heroDefending := guard)).active
  {
    RosterSame(w.combat, w.combat.(heroDefending := guard));
    AdvancedPointed(w.combat.(heroDefending := guard));
  }

  /** Paying MP books nothing. */
  lemma PaidBooked(w: World, w': World, es: seq<Enemy>, xp: int, room: string, cleared: set<string>, l: Ledger)
    requires Booked(w, es, xp, room, cleared, l, false)
    requires w'.combat == w.combat && w'.hero.xp == w.hero.xp && w'.currentRoom == w.currentRoom && Cleared(w') == Cleared(w)
    ensures Booked(w', es, xp, room, cleared, l, false)
  {
    hide Cleared;
  }

  lemma CastBooked(spec: Spec, w: World, a: Action, es: seq<Enemy>, xp: int, room: string, cleared: set<string>,
      l: Ledger)
    requires a.Chant? && CombatOK(w.combat) && EngineRuns.Callable(w) && Balanced(w, es, xp, room, cleared, l)
    ensures Booked(Applied(spec, w, a), es, xp, room, cleared, Entered(spec, w, a, l), false)
  {
    hide CombatOK, Advanced, Cleared, Struck, Balanced, Settlement, CarryWeight;
    var w' := Applied(spec, w, a);
    SpentTurnEnemies(w, false);
    CombatActive(w.combat);
    if Blow(spec, w, a).Some? {
      var (i, damage) := Blow(spec, w, a).value;
      BlowBooked(spec, w, i, damage, es, xp, room, cleared, l);
      var struck := Struck(spec, w, i, damage);
      ClearedSame(struck, w');
      PaidBooked(struck, w', es, xp, room, cleared, Entered(spec, w, a, l));
    } else {
      ClearedSame(w, w');
      QuietBooked(w, w', es, xp, room, cleared, l);
    }
  }

  lemma CombatActive(c: CombatState)
    requires CombatOK(c)
    ensures c.active
  {
  }

  lemma HitBooked(spec: Spec, w: World, a: Action, es: seq<Enemy>, xp: int, room: string, cleared: set<string>,
      l: Ledger)
    requires a.Hit? && CombatOK(w.combat) && EngineRuns.Callable(w) && Balanced(w, es, xp, room, cleared, l)
    ensures Booked(Applied(spec, w, a), es, xp, room, cleared, Entered(spec, w, a, l), false)
  {
    hide CombatOK, Advanced, Cleared, Struck, Balanced, Settlement;
    CombatActive(w.combat);
    if Blow(spec, w, a).Some? {
      var (i, damage) := Blow(spec, w, a).value;
      BlowBooked(spec, w, i, damage, es, xp, room, cleared, l);
    }
  }

  /** Item handling keeps the cleared rooms. */
  lemma ItemsBooked(spec: Spec, w: World, a: Action, es: seq<Enemy>, xp: int, room: string, cleared: set<string>,
      l: Ledger)
    requires a.Take? || a.Leave? || a.PutOn? || a.TakeOff? || a.Use? || a.Look?
    requires w.combat.active && EngineRuns.Callable(w) && Balanced(w, es, xp, room, cleared, l)
    ensures Booked(Applied(spec, w, a), es, xp, room, cleared, l, false)
  {
    hide Balanced, Ensured, CarryWeight;
    var w' := Applied(spec, w, a);
    assert w'.combat == w.combat && w'.hero.xp == w.hero.xp && w'.currentRoom == w.currentRoom by {
      EnsuredFrame(spec, w, w.currentRoom);
      if a.Look? {
        EnsuredFrame(spec, w, a.room);
      }
    }
    assert Cleared(w') == Cleared(w) by {
      EnsuredCleared(spec, w, w.currentRoom);
      if a.Look? {
        EnsuredCleared(spec, w, a.room);
      }
      forall rs: RoomState | rs.cleared == RoomStateOf(spec, w, w.currentRoom).cleared
        ensures Cleared(w.(roomState := w.roomState[w.currentRoom := rs])) == Cleared(w)
      {
        SameFlag(spec, w, rs);
      }
      ClearedSame(w', w.(roomState := w'.roomState));
    }
    QuietBooked(w, w', es, xp, room, cleared, l);
  }

  lemma EnsuredFrame(spec: Spec, w: World, room: string)
    ensures var w' := Ensured(spec, w, room);
            w'.combat == w.combat && w'.hero == w.hero && w'.currentRoom == w.currentRoom
  {
  }

  lemma SameFlag(spec: Spec, w: World, rs: RoomState)
    requires rs.cleared == RoomStateOf(spec, w, w.currentRoom).cleared
    ensures Cleared(w.(roomState := w.roomState[w.currentRoom := rs])) == Cleared(w)
  {
    var w' := w.(roomState := w.roomState[w.currentRoom := rs]);
    forall r ensures r in Cleared(w') <==> r in Cleared(w) {
    }
  }

  /** The hero's escape ends the fight without a victory. */
  ghost predicate Escapes(w: World, a: Action)
    requires WellIndexed(w.combat)
  {
    a.RunFrom? && Fled(w, a.roll).1 == Ok(true)
  }

  /** One action of an encounter, moves being blocked, keeps the books. */
  lemma ActionBooked(spec: Spec, w: World, a: Action, es: seq<Enemy>, xp: int, room: string, cleared: set<string>,
      l: Ledger)
    requires WorldOK(w) && w.combat.active && EngineRuns.Callable(w) && Balanced(w, es, xp, room, cleared, l)
    requires !a.Go?
    ensures Booked(Applied(spec, w, a), es, xp, room, cleared, Entered(spec, w, a, l), Escapes(w, a))
  {
    hide CombatOK, Advanced, Cleared, Balanced, Leveled;
    var w' := Applied(spec, w, a);
    match a {
      case Hit(_, _) => HitBooked(spec, w, a, es, xp, room, cleared, l);
      case Chant(_, _, _) => CastBooked(spec, w, a, es, xp, room, cleared, l);
      case EnemyTurn(roll) => EnemyTurnBooked(spec, w, roll, es, xp, room, cleared, l);
      case Guard =>
        SpentTurnEnemies(w, true);
        ClearedSame(w, w');
        QuietBooked(w, w', es, xp, room, cleared, l);
      case RunFrom(roll) =>
        SpentTurnEnemies(w, false);
        ClearedSame(w, w');
        BooksBound(w, es, xp, room, cleared, l);
        if w'.combat.active {
          QuietBooked(w, w', es, xp, room, cleared, l);
        }
      case LevelCheck =>
        LeveledKeepsXP(w.hero);
        ClearedSame(w, w');
        QuietBooked(w, w', es, xp, room, cleared, l);
      case Fight(_) => QuietBooked(w, w', es, xp, room, cleared, l);
      case _ => ItemsBooked(spec, w, a, es, xp, room, cleared, l);
    }
  }

  lemma BooksBound(w: World, es: seq<Enemy>, xp: int, room: string, cleared: set<string>, l: Ledger)
    requires CombatOK(w.combat) && Balanced(w, es, xp, room, cleared, l)
    ensures Settlement(w, es, xp, room, cleared, l, true)
  {
    TotalHPNonNegative(w.combat.enemies);
  }

  // ---------- Hit points only go down ----------

  /** What an action that does not end the fight makes of the enemies: the one struck is hurt,
      the one that runs is gone, and nobody else is touched. */
  ghost function Remaining(spec: Spec, w: World, a: Action): seq<Enemy>
    requires WorldOK(w) && EngineRuns.Callable(w) && w.combat.active
  {
    match Blow(spec, w, a)
    case Some((i, damage)) => w.combat.enemies[i := Hurt(w.combat.enemies[i], damage)]
    case None =>
      if Runaway(w, a).Some? then
        w.combat.enemies[Runaway(w, a).value := w.combat.enemies[Runaway(w, a).value].(hp := 0)]
      else w.combat.enemies
  }

  lemma StruckEnemies(spec: Spec, w: World, i: nat, damage: int)
    requires CombatOK(w.combat) && i < |w.combat.enemies| && Struck(spec, w, i, damage).combat.active
    ensures Struck(spec, w, i, damage).combat.enemies == w.combat.enemies[i := Hurt(w.combat.enemies[i], damage)]
  {
    hide Roster, Advanced;
    var e := Hurt(w.combat.enemies[i], damage);
    var c := w.combat.(enemies := w.combat.enemies[i := e]);
    RosterUpdate(w.combat, i, e);
    RosterSame(c, c.(heroDefending := false));
    AdvancedPointed(c.(heroDefending := false));
  }

  lemma EnemyTurnEnemies(spec: Spec, w: World, roll: int)
    requires WorldOK(w) && EngineRuns.Callable(w) && w.combat.active
    requires EnemyActed(spec, w, roll).0.combat.active
    ensures EnemyActed(spec, w, roll).0.combat.enemies == Remaining(spec, w, EnemyTurn(roll))
  {
    hide Roster, Advanced, Mitigated;
    var c := w.combat;
    if !HeroTurn(c) {
      var i := FindEnemy(c.enemies, c.turnOrder[c.currentTurn]);
      AdvancedSound(c);
      RosterUpdate(c, i, c.enemies[i].(hp := 0));
      AdvancedSound(c.(enemies := c.enemies[i := c.enemies[i].(hp := 0)]));
    }
  }

  lemma CastEnemies(spec: Spec, w: World, a: Action)
    requires a.Chant? && WorldOK(w) && EngineRuns.Callable(w) && w.combat.active
    requires Applied(spec, w, a).combat.active
    ensures Applied(spec, w, a).combat.enemies == Remaining(spec, w, a)
  {
    hide Roster, Pointed, Advanced, Struck;
    SpentTurnEnemies(w, false);
    if Blow(spec, w, a).Some? {
      var (i, damage) := Blow(spec, w, a).value;
      StruckEnemies(spec, w, i, damage);
    }
  }

  lemma ActionOnEnemies(spec: Spec, w: World, a: Action)
    requires WorldOK(w) && EngineRuns.Callable(w) && w.combat.active && Applied(spec, w, a).combat.active
    ensures Applied(spec, w, a).combat.enemies == Remaining(spec, w, a)
  {
    hide Roster, Pointed, Advanced, Struck, CarryWeight, Ensured, EnemyActed, Cast, Leveled;
    match a
    case Hit(_, _) =>
      if Blow(spec, w, a).Some? {
        var (i, damage) := Blow(spec, w, a).value;
        StruckEnemies(spec, w, i, damage);
      }
    case Chant(_, _, _) => CastEnemies(spec, w, a);
    case EnemyTurn(roll) => EnemyTurnEnemies(spec, w, roll);
    case Guard => SpentTurnEnemies(w, true);
    case RunFrom(_) => SpentTurnEnemies(w, false);
    case Go(dir) => MovedFrame(spec, w, dir);
    case Look(room) => EnsuredFrame(spec, w, room);
    case _ => EnsuredFrame(spec, w, w.currentRoom);
  }

  lemma MovedFrame(spec: Spec, w: World, dir: Direction)
    ensures Moved(spec, w, dir).combat == w.combat && Moved(spec, w, dir).hero == w.hero
  {
  }

  /** No engine call gives an enemy hit points back, and the total falls exactly when a blow
      lands or an enemy runs away. */
  lemma NeverRises(spec: Spec, w: World, a: Action)
    requires WorldOK(w) && EngineRuns.Callable(w) && w.combat.active && Applied(spec, w, a).combat.active
    ensures var before, after := w.combat.enemies, Applied(spec, w, a).combat.enemies;
            && |after| == |before|
            && (forall i :: 0 <= i < |before| ==> after[i] == before[i].(hp := after[i].hp) && after[i].hp <= before[i].hp)
            && TotalHP(after) <= TotalHP(before)
            && (TotalHP(after) < TotalHP(before) <==> Blow(spec, w, a).Some? || Runaway(w, a).Some?)
  {
    hide Roster, Pointed, Applied, TotalHP, Attacked, Cast;
    ActionOnEnemies(spec, w, a);
    if Blow(spec, w, a).Some? {
      var (i, damage) := Blow(spec, w, a).value;
      BlowFinds(spec, w, a);
      TotalHPUpdate(w.combat.enemies, i, Hurt(w.combat.enemies[i], damage));
    } else if Runaway(w, a).Some? {
      var i := Runaway(w, a).value;
      TotalHPUpdate(w.combat.enemies, i, w.combat.enemies[i].(hp := 0));
    }
  }

  lemma BlowFinds(spec: Spec, w: World, a: Action)
    requires WellIndexed(w.combat) && Blow(spec, w, a).Some?
    ensures var (i, damage) := Blow(spec, w, a).value;
            i < |w.combat.enemies| && w.combat.enemies[i].hp > 0 && damage >= 1
  {
  }

  // ---------- A whole encounter ----------

  /** Carries out the actions until the fight is over, keeping the ledger. */
  ghost function Fought(spec: Spec, w: World, actions: seq<Action>, l: Ledger): (end: (World, Ledger, bool))
    requires WorldOK(w) && TemplatesAlive(spec) && -1 <= w.hero.level
    requires forall a :: a in actions ==> !a.Go?
    ensures WorldOK(end.0)
    decreases |actions|
  {
    if actions == [] || !w.combat.active then (w, l, false)
    else
      Ready(w);
      AppliedOK(spec, w, actions[0]);
      var w', l' := Applied(spec, w, actions[0]), Entered(spec, w, actions[0], l);
      if w'.combat.active then Fought(spec, w', actions[1..], l')
      else (w', l', Escapes(w, actions[0]))
  }

  lemma {:induction false} FoughtBooked(spec: Spec, w: World, actions: seq<Action>, es: seq<Enemy>, xp: int,
                                        room: string, cleared: set<string>, l: Ledger)
    requires WorldOK(w) && w.combat.active && TemplatesAlive(spec) && -1 <= w.hero.level
    requires forall a :: a in actions ==> !a.Go?
    requires Balanced(w, es, xp, room, cleared, l)
    ensures var (end, books, heroFled) := Fought(spec, w, actions, l);
            Booked(end, es, xp, room, cleared, books, heroFled)
    decreases |actions|
  {
    hide WorldOK, Balanced, TemplatesAlive, Applied, Settlement, Entered;
    if actions != [] {
      Ready(w);
      AppliedOK(spec, w, actions[0]);
      assert actions[0] in actions;
      ActionBooked(spec, w, actions[0], es, xp, room, cleared, l);
      var w' := Applied(spec, w, actions[0]);
      if w'.combat.active {
        FoughtBooked(spec, w', actions[1..], es, xp, room, cleared, Entered(spec, w, actions[0], l));
      }
    }
  }

  /** Between any two points of a fight the enemies' total never rises, and each blow in
      between has taken at least one point off it. */
  lemma {:induction false} FoughtNeverRises(spec: Spec, w: World, actions: seq<Action>, k: nat, l: Ledger)
    requires WorldOK(w) && TemplatesAlive(spec) && -1 <= w.hero.level && k <= |actions|
    requires forall a :: a in actions ==> !a.Go?
    requires Fought(spec, w, actions, l).0.combat.active
    ensures var (mid, midBooks, _) := Fought(spec, w, actions[..k], l);
            var (end, endBooks, _) := Fought(spec, w, actions, l);
            && mid.combat.active
            && TotalHP(end.combat.enemies) + (endBooks.blows - midBooks.blows) <= TotalHP(mid.combat.enemies)
    decreases |actions|
  {
    hide WorldOK, TemplatesAlive, Applied, Blow, Runaway, TotalHP;
    if actions != [] && w.combat.active {
      Ready(w);
      AppliedOK(spec, w, actions[0]);
      assert actions[0] in actions;
      var w', l' := Applied(spec, w, actions[0]), Entered(spec, w, actions[0], l);
      NeverRises(spec, w, actions[0]);
      if k == 0 {
        FoughtNeverRises(spec, w', actions[1..], 0, l');
        assert actions[1..][..0] == [] == actions[..0];
      } else {
        FoughtNeverRises(spec, w', actions[1..], k - 1, l');
        assert actions[..k][1..] == actions[1..][..k - 1] && actions[..k][0] == actions[0];
      }
    }
  }

  /** From the start of a fight to any point of it, or to its end: the experience gained is the
      sum of MaxHP over the enemies the hero slew, each counted once, runaways giving none; at
      most the sum of all MaxHP blows land, the total never rising; and a victory clears the room
      the fight began in. */
  lemma EncounterAccounts(spec: Spec, before: World, rolls: nat -> int, actions: seq<Action>)
    requires WorldOK(before) && TemplatesAlive(spec) && -1 <= before.hero.level
    requires CombatStarted(spec, before, rolls).1.Ok?
    requires forall a :: a in actions ==> !a.Go?
    ensures var w := CombatStarted(spec, before, rolls).0;
            && WorldOK(w) && -1 <= w.hero.level
            && var (end, books, heroFled) := Fought(spec, w, actions, Ledger({}, {}, 0));
            && end.hero.xp == before.hero.xp + MaxHPOf(w.combat.enemies, books.slain)
            && books.slain !! books.fled && books.blows <= TotalMax(w.combat.enemies)
            && (end.combat.active ==> TotalHP(end.combat.enemies) + books.blows <= TotalHP(w.combat.enemies))
            && (end.combat.active || heroFled ==> Cleared(end) == Cleared(before))
            && (!end.combat.active && !heroFled ==>
                  && Cleared(end) == Cleared(before) + {before.currentRoom}
                  && forall i: nat :: i < |w.combat.enemies| ==> i in books.slain || i in books.fled)
  {
    hide Roster, Pointed, Opening, Applied, Entered, Cleared;
    var w := CombatStarted(spec, before, rolls).0;
    CombatStartedOK(spec, before, rolls);
    EnsuredCleared(spec, before, before.currentRoom);
    ClearedSame(Ensured(spec, before, before.currentRoom), w);
    StartBalanced(spec, before, rolls);
    FoughtBooked(spec, w, actions, w.combat.enemies, before.hero.xp, before.currentRoom, Cleared(before), Ledger({}, {}, 0));
    var (end, books, heroFled) := Fought(spec, w, actions, Ledger({}, {}, 0));
    if end.combat.active {
      TotalHPNonNegative(end.combat.enemies);
      FoughtNeverRises(spec, w, actions, 0, Ledger({}, {}, 0));
    }
  }

  lemma StartBalanced(spec: Spec, before: World, rolls: nat -> int)
    requires WorldOK(before) && TemplatesAlive(spec) && CombatStarted(spec, before, rolls).1.Ok?
    ensures var w := CombatStarted(spec, before, rolls).0;
            Balanced(w, w.combat.enemies, before.hero.xp, before.currentRoom, Cleared(before), Ledger({}, {}, 0))
  {
    hide Roster, Pointed, Cleared;
    var w := CombatStarted(spec, before, rolls).0;
    var templates := spec.rooms[before.currentRoom].enemies;
    InstancesShape(spec, templates);
    EnsuredCleared(spec, before, before.currentRoom);
    ClearedSame(Ensured(spec, before, before.currentRoom), w);
    MaxHPNone(w.combat.enemies);
    FreshTotals(w.combat.enemies);
  }

  lemma {:induction false} FreshTotals(es: seq<Enemy>)
    requires forall i :: 0 <= i < |es| ==> es[i].hp == es[i].maxHP
    ensures TotalHP(es) == TotalMax(es)
  {
    if es != [] {
      FreshTotals(es[..|es| - 1]);
    }
  }
}
