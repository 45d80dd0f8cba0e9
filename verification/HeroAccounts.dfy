/** What the results of engine calls report is what the hero and the enemies lose and gain. */
module HeroAccounts {
  import opened Wrappers
  import opened Scenarios
  import opened GameStates
  import opened Leveling
  import opened Combat
  import opened Spells
  import opened Inventory
  import opened CombatInvariant
  import opened EngineRuns

  // ---------- Blows ----------

  /** The hero may act in a fight. */
  predicate MayAct(w: World)
    requires WellIndexed(w.combat)
  {
    w.combat.active && w.hero.hp > 0 && HeroTurn(w.combat)
  }

  /** `i` is the place of the first enemy of that id, and it lives. */
  predicate LivesAt(es: seq<Enemy>, i: int, id: string) {
    0 <= i < |es| && es[i].id == id && es[i].hp > 0 && forall j :: 0 <= j < i ==> es[j].id != id
  }

  lemma LivingLives(es: seq<Enemy>, id: string)
    ensures Living(es, id) ==> LivesAt(es, FindEnemy(es, id), id)
    ensures forall i :: LivesAt(es, i, id) ==> Living(es, id) && i == FindEnemy(es, id)
  {
  }

  /** `w'` is `w` after a blow of `power` on enemy `i`: it loses that many hit points, or all it has,
      the others none; the hero gains its MaxHP in experience if it falls; with the last one the fight
      is over and the room cleared. */
  ghost predicate BlowFalls(w: World, w': World, i: nat, power: int)
    requires i < |w.combat.enemies|
  {
    var e := w.combat.enemies[i];
    var left := if e.hp <= power then 0 else e.hp - power;
    var over := left == 0 && forall j :: 0 <= j < |w.combat.enemies| && j != i ==> w.combat.enemies[j].hp <= 0;
    && w'.hero == w.hero.(xp := w.hero.xp + if left == 0 then e.maxHP else 0)
    && w'.currentRoom == w.currentRoom && w'.visitedRooms == w.visitedRooms
    && (over ==> w'.combat == NO_COMBAT && w.currentRoom in w'.roomState && w'.roomState[w.currentRoom].cleared)
    && (!over ==> w'.combat.active && w'.combat.enemies == w.combat.enemies[i := e.(hp := left)] && w'.roomState == w.roomState)
  }

  lemma StruckFalls(spec: Spec, w: World, i: nat, power: int)
    requires CombatOK(w.combat) && i < |w.combat.enemies| && w.combat.enemies[i].hp > 0 && power >= 1
    ensures BlowFalls(w, Struck(spec, w, i, power), i, power)
  {
    hide Roster, Pointed, Steps;
    var e := w.combat.enemies[i];
    var es := w.combat.enemies[i := Hurt(e, power)];
    assert AllDead(es) <==> e.hp <= power && forall j :: 0 <= j < |es| && j != i ==> w.combat.enemies[j].hp <= 0 by {
      assert es[i] == Hurt(e, power);
      forall j | 0 <= j < |es| && j != i ensures es[j] == w.combat.enemies[j] {
      }
    }
    PointedRange(w.combat);
  }

  /** An attack succeeds exactly on a living enemy in the hero's turn, reports what it does, and
      does it; refused, it changes nothing. */
  lemma AttackReports(spec: Spec, w: World, target: string, roll: int)
    requires WorldOK(w) && Callable(w)
    ensures var (w', r) := Attacked(spec, w, target, roll);
            && (r.Ok? <==> MayAct(w) && exists i :: LivesAt(w.combat.enemies, i, target))
            && (r.Err? ==> w' == w)
            && (forall i :: r.Ok? && LivesAt(w.combat.enemies, i, target) ==>
                  && r.value.damage == (if roll < 1 then 1 else roll)
                  && BlowFalls(w, w', i, r.value.damage)
                  && r.value.killed == (w.combat.enemies[i].hp <= r.value.damage)
                  && r.value.xpAwarded == w'.hero.xp - w.hero.xp
                  && r.value.combatOver == !w'.combat.active)
  {
    hide Struck, BlowFalls, Roster, Pointed;
    LivingLives(w.combat.enemies, target);
    if Attacked(spec, w, target, roll).1.Ok? {
      var i := FindEnemy(w.combat.enemies, target);
      var power := AtLeastOne(roll);
      StruckFalls(spec, w, i, power);
      BlowReports(spec, w, i, power);
    }
  }

  lemma BlowReports(spec: Spec, w: World, i: nat, power: int)
    requires CombatOK(w.combat) && i < |w.combat.enemies| && power >= 1 && w.combat.enemies[i].hp > 0
    requires BlowFalls(w, Struck(spec, w, i, power), i, power)
    ensures var w', e := Struck(spec, w, i, power), Hurt(w.combat.enemies[i], power);
            && w'.hero.xp - w.hero.xp == (if e.hp <= 0 then e.maxHP else 0)
            && w'.combat.active == !AllDead(w.combat.enemies[i := e])
  {
    hide Struck, Roster, Pointed;
    var es := w.combat.enemies[i := Hurt(w.combat.enemies[i], power)];
    assert es[i] == Hurt(w.combat.enemies[i], power);
    assert forall j :: 0 <= j < |es| && j != i ==> es[j] == w.combat.enemies[j];
  }

  // ---------- Spells and potions ----------

  /** The hero, `power` hit points better off but not beyond his maximum. */
  predicate HealedBy(h: Character, h': Character, power: int) {
    && h'.hp == (if h.hp + power <= h.maxHP then h.hp + power else h.maxHP)
    && h' == h.(hp := h'.hp, mp := h'.mp)
  }

  /** A spell is cast exactly by a living hero of a class that knows it, with the MP it costs, dice
      that make sense and, for a damage spell, a living enemy in the hero's turn, for a healing one,
      no enemy's turn. It costs exactly its MP, strikes like an attack or heals; a spell that is not
      cast costs and changes nothing. */
  lemma CastReports(spec: Spec, w: World, spell: string, target: string, roll: Option<int>)
    requires WorldOK(w) && Callable(w)
    ensures var (w', r) := Cast(spec, w, spell, target, roll);
            var t := if target == "" then FirstAlive(w.combat.enemies) else target;
            && (r.Ok? <==>
                  && w.hero.hp > 0 && spell in spec.spells && w.hero.class_ in spec.spells[spell].classes
                  && spec.spells[spell].mp <= w.hero.mp && roll.Some?
                  && ((spec.spells[spell].effect == "damage" && MayAct(w) && exists i :: LivesAt(w.combat.enemies, i, t))
                      || (spec.spells[spell].effect == "heal" && (w.combat.active ==> HeroTurn(w.combat)))))
            && (r.Err? ==> w' == w)
            && (r.Ok? ==>
                  && r.value.power == (if roll.value < 1 then 1 else roll.value) && r.value.mpCost == spec.spells[spell].mp
                  && w'.hero.mp == w.hero.mp - r.value.mpCost)
            && (forall i :: r.Ok? && spec.spells[spell].effect == "damage" && LivesAt(w.combat.enemies, i, t) ==>
                  BlowFalls(w, w'.(hero := w'.hero.(mp := w.hero.mp)), i, r.value.power))
            && (r.Ok? && spec.spells[spell].effect == "heal" ==>
                  && HealedBy(w.hero, w'.hero, r.value.power) && r.value.heroHP == w'.hero.hp
                  && w'.combat.enemies == w.combat.enemies && w'.combat.active == w.combat.active && w'.roomState == w.roomState)
  {
    hide Struck, BlowFalls, Roster, Pointed, Steps;
    var t := Aim(w, target);
    LivingLives(w.combat.enemies, t);
    if w.combat.active {
      PointedRange(w.combat);
    }
    var (w', r) := Cast(spec, w, spell, target, roll);
    if r.Ok? && spec.spells[spell].effect == "damage" {
      var i := FindEnemy(w.combat.enemies, t);
      var struck := Struck(spec, w, i, r.value.power);
      StruckFalls(spec, w, i, r.value.power);
      StruckKeepsMP(spec, w, i, r.value.power);
      assert w'.(hero := w'.hero.(mp := w.hero.mp)) == struck;
    }
  }

  lemma StruckKeepsMP(spec: Spec, w: World, i: nat, power: int)
    requires CombatOK(w.combat) && i < |w.combat.enemies|
    ensures Struck(spec, w, i, power).hero.mp == w.hero.mp
  {
    hide Roster, Pointed, Steps;
    PointedRange(w.combat);
  }

  predicate IsPotion(item: Item) {
    item.def.kind == "consumable" && item.def.effect == "heal" && item.def.power != ""
  }

  /** A potion is used exactly if the first item of that id is one and its dice make sense; it heals,
      and that item alone is gone. */
  lemma PotionReports(w: World, id: string, roll: Option<int>)
    ensures var (w', r) := Consumed(w, id, roll);
            && (r.Ok? <==> roll.Some? && exists i :: FirstItem(w.hero.inventory, i, id) && IsPotion(w.hero.inventory[i]))
            && (r.Err? ==> w' == w)
            && (forall i :: r.Ok? && FirstItem(w.hero.inventory, i, id) ==>
                  && r.value == w.hero.inventory[i] && w' == w.(hero := w'.hero) && w'.hero.mp == w.hero.mp
                  && w'.hero.inventory == w.hero.inventory[..i] + w.hero.inventory[i + 1..]
                  && HealedBy(w.hero, w'.hero.(inventory := w.hero.inventory), if roll.value < 1 then 1 else roll.value))
  {
    var i := IndexOf(w.hero.inventory, id);
    assert i >= 0 ==> FirstItem(w.hero.inventory, i, id);
  }

  // ---------- Whole runs ----------

  /** What `power` heals of `h`. */
  function Relief(h: Character, power: int): int {
    if h.hp + power <= h.maxHP then power else h.maxHP - h.hp
  }

  /** The change of the hero's hit points that a call reports: the damage of an enemy's hit, what a
      spell or a potion heals, and the growth of his maximum. */
  function HPReported(spec: Spec, w: World, a: Action): int
    requires Callable(w)
  {
    match a
    case EnemyTurn(roll) =>
      var r := EnemyActed(spec, w, roll).1;
      if r.Ok? && r.value.action.Hit? then -r.value.action.damage else 0
    case Chant(spell, target, power) =>
      var r := Cast(spec, w, spell, target, power).1;
      if r.Ok? && r.value.effect == "heal" then Relief(w.hero, r.value.power) else 0
    case Use(id, power) =>
      if Consumed(w, id, power).1.Ok? then Relief(w.hero, AtLeastOne(power.value)) else 0
    case LevelCheck => Leveled(w.hero).maxHP - w.hero.maxHP
    case _ => 0
  }

  /** The change of his MP that a call reports: the cost of a spell, and the growth of the maximum. */
  function MPReported(spec: Spec, w: World, a: Action): int
    requires Callable(w)
  {
    match a
    case Chant(spell, target, power) =>
      var r := Cast(spec, w, spell, target, power).1;
      if r.Ok? then -r.value.mpCost else 0
    case LevelCheck => Leveled(w.hero).maxMP - w.hero.maxMP
    case _ => 0
  }

  lemma AppliedAccounts(spec: Spec, w: World, a: Action)
    requires WorldOK(w) && Callable(w)
    ensures Applied(spec, w, a).hero.hp == w.hero.hp + HPReported(spec, w, a)
    ensures Applied(spec, w, a).hero.mp == w.hero.mp + MPReported(spec, w, a)
  {
    hide WorldOK, Advanced, Leveled, Mitigated, Attacked, Cast, CarryWeight, Opening, Instances, TemplatesKnown;
    match a
    case Hit(target, roll) => AttackAccounts(spec, w, target, roll);
    case Chant(spell, target, roll) => CastAccounts(spec, w, spell, target, roll);
    case LevelCheck => LeveledWithinMaxima(w.hero);
    case _ =>
  }

  lemma AttackAccounts(spec: Spec, w: World, target: string, roll: int)
    requires WorldOK(w) && Callable(w)
    ensures var h := Attacked(spec, w, target, roll).0.hero; h.hp == w.hero.hp && h.mp == w.hero.mp
  {
    hide Roster, Pointed, Advanced;
  }

  lemma CastAccounts(spec: Spec, w: World, spell: string, target: string, roll: Option<int>)
    requires WorldOK(w) && Callable(w)
    ensures var a, h := Chant(spell, target, roll), Cast(spec, w, spell, target, roll).0.hero;
            h.hp == w.hero.hp + HPReported(spec, w, a) && h.mp == w.hero.mp + MPReported(spec, w, a)
  {
    hide Roster, Pointed, Advanced;
  }

  ghost function HPTotal(spec: Spec, w: World, actions: seq<Action>): int
    requires WorldOK(w) && TemplatesAlive(spec) && -1 <= w.hero.level
    decreases |actions|
  {
    if actions == [] then 0
    else
      Ready(w);
      AppliedOK(spec, w, actions[0]);
      HPReported(spec, w, actions[0]) + HPTotal(spec, Applied(spec, w, actions[0]), actions[1..])
  }

  ghost function MPTotal(spec: Spec, w: World, actions: seq<Action>): int
    requires WorldOK(w) && TemplatesAlive(spec) && -1 <= w.hero.level
    decreases |actions|
  {
    if actions == [] then 0
    else
      Ready(w);
      AppliedOK(spec, w, actions[0]);
      MPReported(spec, w, actions[0]) + MPTotal(spec, Applied(spec, w, actions[0]), actions[1..])
  }

  /** Over any run of engine calls the hero's hit points and MP change by exactly what the calls have
      reported: hits, healing, costs and growth. */
  lemma {:induction false} RanAccounts(spec: Spec, w: World, actions: seq<Action>)
    requires WorldOK(w) && TemplatesAlive(spec) && -1 <= w.hero.level
    ensures Ran(spec, w, actions).hero.hp == w.hero.hp + HPTotal(spec, w, actions)
    ensures Ran(spec, w, actions).hero.mp == w.hero.mp + MPTotal(spec, w, actions)
    decreases |actions|
  {
    hide WorldOK, TemplatesAlive, Applied, HPReported, MPReported;
    if actions != [] {
      Ready(w);
      AppliedOK(spec, w, actions[0]);
      AppliedAccounts(spec, w, actions[0]);
      RanAccounts(spec, Applied(spec, w, actions[0]), actions[1..]);
    }
  }
}
